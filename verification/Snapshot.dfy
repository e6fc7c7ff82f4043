/** A cart as a bounded, ordered set of named files, and the rules a name and
    the whole are held to. */
module Snapshot {
  import opened Numbers
  import opened NetTypes
  import opened Wrappers

  const MAX_FILES := 4096
  const MAX_FILE_BYTES := 16 * 1024 * 1024
  const MAX_TOTAL_BYTES := 64 * 1024 * 1024

  datatype Entry = Entry(name: Str, data: seq<byte>)

  // ----- names ------------------------------------------------------------------------

  function Split(s: Str, sep: byte): (r: seq<Str>)
    ensures r != []
  {
    if s == [] then [[]]
    else if s[0] == sep then [[]] + Split(s[1..], sep)
    else var rest := Split(s[1..], sep); [[s[0]] + rest[0]] + rest[1..]
  }

  function Joined(pieces: seq<Str>, sep: byte): Str
    requires pieces != []
  {
    if |pieces| == 1 then pieces[0] else pieces[0] + [sep] + Joined(pieces[1..], sep)
  }

  /** The pieces are what lies between the separators, empty ones too: none holds a
      separator, and put between them the separators give the name back. */
  lemma {:induction false} SplitMeans(s: Str, sep: byte)
    ensures Joined(Split(s, sep), sep) == s
    ensures forall p :: p in Split(s, sep) ==> sep !in p
  {
    if s != [] {
      SplitMeans(s[1..], sep);
      var rest := Split(s[1..], sep);
      if s[0] == sep {
        assert ([[]] + rest)[1..] == rest;
        assert Joined(Split(s, sep), sep) == [] + [sep] + s[1..] == s;
      } else {
        JoinedFront(s[0], rest, sep);
        forall p | p in Split(s, sep)
          ensures sep !in p
        {
          assert p == [s[0]] + rest[0] || p in rest;
        }
      }
    }
  }

  lemma JoinedFront(b: byte, pieces: seq<Str>, sep: byte)
    requires pieces != []
    ensures Joined([[b] + pieces[0]] + pieces[1..], sep) == [b] + Joined(pieces, sep)
  {
    if |pieces| > 1 {
      assert ([[b] + pieces[0]] + pieces[1..])[1..] == pieces[1..];
      assert [b] + pieces[0] + [sep] + Joined(pieces[1..], sep) == [b] + (pieces[0] + [sep] + Joined(pieces[1..], sep));
    }
  }

  function Lower(b: byte): byte { if 65 <= b <= 90 then b + 32 else b }

  function Folded(s: Str): (r: Str)
    ensures |r| == |s|
  {
    seq(|s|, i requires 0 <= i < |s| => Lower(s[i]))
  }

  /** CON, PRN, AUX, NUL, COM1 to COM9 and LPT1 to LPT9, in any case. */
  predicate Reserved(stem: Str) {
    var s := Folded(stem);
    || s == [99, 111, 110] || s == [112, 114, 110] || s == [97, 117, 120] || s == [110, 117, 108]
    || (|s| == 4 && (s[..3] == [99, 111, 109] || s[..3] == [108, 112, 116]) && 49 <= s[3] <= 57)
  }

  /** A control character: below space, delete, or U+0080 to U+009F. */
  predicate ControlAt(p: Str, i: nat)
    requires i < |p|
  {
    p[i] < 32 || p[i] == 127 || (p[i] == 0xC2 && i + 1 < |p| && 0x80 <= p[i + 1] <= 0x9F)
  }

  predicate Forbidden(b: byte) {
    b == 92 || b == 58 || b == 42 || b == 63 || b == 34 || b == 60 || b == 62 || b == 124
  }

  predicate PieceOk(p: Str) {
    && p != [] && p != [46] && p != [46, 46]
    && p[|p| - 1] != 46 && p[|p| - 1] != 32 && p[0] != 32
    && (forall i :: 0 <= i < |p| ==> !ControlAt(p, i) && !Forbidden(p[i]))
    && !Reserved(Split(p, 46)[0])
  }

  /** `name_problem` finds none. */
  predicate Portable(name: Str) {
    && name != [] && |name| <= 255 && name[0] != 47
    && forall p :: p in Split(name, 47) ==> PieceOk(p)
  }

  // ----- order ------------------------------------------------------------------------

  predicate Less(a: Str, b: Str) {
    b != [] && (a == [] || a[0] < b[0] || (a[0] == b[0] && Less(a[1..], b[1..])))
  }

  lemma {:induction false} LessTotal(a: Str, b: Str)
    ensures Less(a, b) || a == b || Less(b, a)
    ensures !(Less(a, b) && Less(b, a)) && !Less(a, a)
  {
    if a != [] && b != [] && a[0] == b[0] {
      LessTotal(a[1..], b[1..]);
      LessTotal(a[1..], a[1..]);
      assert a == [a[0]] + a[1..] && b == [b[0]] + b[1..];
    } else if a != [] {
      LessTotal(a[1..], a[1..]);
    }
  }

  lemma {:induction false} LessTransitive(a: Str, b: Str, c: Str)
    requires Less(a, b) && Less(b, c)
    ensures Less(a, c)
  {
    if a != [] && a[0] == b[0] == c[0] {
      LessTransitive(a[1..], b[1..], c[1..]);
    }
  }

  /** The order of names: a name before what it begins, and otherwise the lesser
      byte where two first differ. */
  lemma {:induction false} LessMeans(a: Str, b: Str)
    ensures Less(a, b) <==> a < b || exists k :: FirstDiffer(a, b, k) && a[k] < b[k]
  {
    if a != [] && b != [] && a[0] == b[0] {
      LessMeans(a[1..], b[1..]);
      assert a == [a[0]] + a[1..] && b == [b[0]] + b[1..];
      if k :| FirstDiffer(a[1..], b[1..], k) && a[1..][k] < b[1..][k] {
        assert FirstDiffer(a, b, k + 1);
      }
      if k :| FirstDiffer(a, b, k) && a[k] < b[k] {
        assert FirstDiffer(a[1..], b[1..], k - 1);
      }
    } else if a != [] && b != [] {
      assert FirstDiffer(a, b, 0);
    }
  }

  predicate FirstDiffer(a: Str, b: Str, k: int) {
    0 <= k < |a| && k < |b| && a[k] != b[k] && forall i :: 0 <= i < k ==> a[i] == b[i]
  }

  ghost predicate Sorted(files: seq<Entry>) {
    forall i, j :: 0 <= i < j < |files| ==> Less(files[i].name, files[j].name)
  }

  // ----- building ---------------------------------------------------------------------

  function Total(files: seq<Entry>): nat {
    if files == [] then 0 else |files[0].data| + Total(files[1..])
  }

  /** The ordered map with one more entry. */
  function Insert(files: seq<Entry>, e: Entry): (r: seq<Entry>)
    ensures |r| == |files| + 1
    ensures forall f :: f in r <==> f in files || f == e
  {
    if files == [] then [e]
    else if Less(e.name, files[0].name) then [e] + files
    else [files[0]] + Insert(files[1..], e)
  }

  /** One entry is taken: a portable name not taken already, case aside, within
      the limits. */
  predicate Takes(files: seq<Entry>, e: Entry) {
    && Portable(e.name)
    && (forall f :: f in files ==> Folded(f.name) != Folded(e.name))
    && |files| < MAX_FILES && |e.data| <= MAX_FILE_BYTES && Total(files) + |e.data| <= MAX_TOTAL_BYTES
  }

  /** `from_entries`, after those already taken. */
  function FromEntries(files: seq<Entry>, entries: seq<Entry>): Option<seq<Entry>>
    decreases |entries|
  {
    if entries == [] then Some(files)
    else if !Takes(files, entries[0]) then None
    else FromEntries(Insert(files, entries[0]), entries[1..])
  }

  /** What a snapshot always is. */
  ghost predicate Snapshot(files: seq<Entry>) {
    && Sorted(files) && |files| <= MAX_FILES && Total(files) <= MAX_TOTAL_BYTES
    && (forall f :: f in files ==> Portable(f.name) && |f.data| <= MAX_FILE_BYTES)
    && (forall i, j :: 0 <= i < j < |files| ==> Folded(files[i].name) != Folded(files[j].name))
  }

  lemma {:induction false} InsertKeepsOrder(files: seq<Entry>, e: Entry)
    requires Sorted(files) && forall f :: f in files ==> f.name != e.name
    ensures Sorted(Insert(files, e))
  {
    hide Less;
    if files != [] {
      var first := files[0];
      if Less(e.name, first.name) {
        forall f | f in files
          ensures Less(e.name, f.name)
        {
          if f != first {
            LessTransitive(e.name, first.name, f.name);
          }
        }
      } else {
        LessTotal(e.name, first.name);
        InsertKeepsOrder(files[1..], e);
        var rest := Insert(files[1..], e);
        forall f | f in rest
          ensures Less(first.name, f.name)
        {
          if f != e {
            var i :| 0 <= i < |files[1..]| && files[1..][i] == f;
            assert f == files[i + 1];
          }
        }
      }
    }
  }

  /** An entry after all the others goes to the end. */
  lemma {:induction false} InsertAtEnd(files: seq<Entry>, e: Entry)
    requires forall f :: f in files ==> Less(f.name, e.name)
    ensures Insert(files, e) == files + [e]
  {
    hide Less;
    if files != [] {
      LessTotal(files[0].name, e.name);
      InsertAtEnd(files[1..], e);
      assert files == [files[0]] + files[1..];
    } else {
      assert files + [e] == [e];
    }
  }

  /** Building always leaves the files in order. */
  lemma {:induction false} BuiltInOrder(files: seq<Entry>, entries: seq<Entry>)
    requires Sorted(files) && FromEntries(files, entries).Some?
    ensures Sorted(FromEntries(files, entries).value)
    decreases |entries|
  {
    hide Portable, Sorted;
    if entries != [] {
      InsertKeepsOrder(files, entries[0]);
      BuiltInOrder(Insert(files, entries[0]), entries[1..]);
    }
  }

  /** Building neither loses nor invents a file. */
  lemma {:induction false} BuiltFrom(files: seq<Entry>, entries: seq<Entry>)
    requires FromEntries(files, entries).Some?
    ensures var r := FromEntries(files, entries).value;
            |r| == |files| + |entries| && forall f :: f in r <==> f in files || f in entries
    decreases |entries|
  {
    hide Portable, Insert;
    if entries != [] {
      BuiltFrom(Insert(files, entries[0]), entries[1..]);
      assert entries == [entries[0]] + entries[1..];
    }
  }

  /** Entries that come in order are kept as they come, and no others are. */
  lemma {:induction false} InOrderAsGiven(files: seq<Entry>, entries: seq<Entry>)
    requires Sorted(files + entries) && FromEntries(files, entries).Some?
    ensures FromEntries(files, entries).value == files + entries
    decreases |entries|
  {
    hide Portable, Less, Insert;
    if entries == [] {
      assert files + entries == files;
    } else {
      var all := files + entries;
      forall f | f in files
        ensures Less(f.name, entries[0].name)
      {
        var i :| 0 <= i < |files| && files[i] == f;
        assert all[i] == f && all[|files|] == entries[0];
      }
      InsertAtEnd(files, entries[0]);
      assert files + [entries[0]] + entries[1..] == all;
      InOrderAsGiven(files + [entries[0]], entries[1..]);
    }
  }

  lemma OrderIsKept(entries: seq<Entry>)
    requires FromEntries([], entries).Some?
    ensures FromEntries([], entries).value == entries <==> Sorted(entries)
  {
    assert [] + entries == entries;
    if Sorted(entries) {
      InOrderAsGiven([], entries);
    }
    BuiltInOrder([], entries);
  }

  lemma {:induction false} TotalSplit(a: seq<Entry>, b: seq<Entry>)
    ensures Total(a + b) == Total(a) + Total(b)
  {
    if a == [] {
      assert a + b == b;
    } else {
      TotalSplit(a[1..], b);
      assert (a + b)[1..] == a[1..] + b;
    }
  }

  /** A snapshot's own entries build it again. */
  lemma {:induction false} SnapshotRebuilds(files: seq<Entry>, entries: seq<Entry>)
    requires Snapshot(files + entries)
    ensures FromEntries(files, entries) == Some(files + entries)
    decreases |entries|
  {
    hide Portable, Less, Insert, Folded;
    if entries == [] {
      assert files + entries == files;
    } else {
      var (all, e) := (files + entries, entries[0]);
      assert all[|files|] == e;
      forall f | f in files
        ensures Less(f.name, e.name) && Folded(f.name) != Folded(e.name)
      {
        var i :| 0 <= i < |files| && files[i] == f;
        assert all[i] == f;
      }
      TotalSplit(files, entries);
      InsertAtEnd(files, e);
      assert files + [e] + entries[1..] == all;
      SnapshotRebuilds(files + [e], entries[1..]);
    }
  }
}
