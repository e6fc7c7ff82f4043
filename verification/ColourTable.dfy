/** The 128 by 128 lookup kept beside the remap and the transparency it is built
    from, and what each change to those rebuilds. */
module ColourTable {
  import opened Numbers
  import opened Raster

  function Identity(): (s: seq<byte>)
    ensures |s| == PALETTE_SIZE && forall i :: 0 <= i < PALETTE_SIZE ==> s[i] == i
  {
    seq(PALETTE_SIZE, i requires 0 <= i < PALETTE_SIZE => i as byte)
  }

  function Opaque(): (s: seq<bool>)
    ensures |s| == PALETTE_SIZE && forall i :: 0 <= i < PALETTE_SIZE ==> !s[i]
  {
    seq(PALETTE_SIZE, _ => false)
  }

  /** What a pen starts with and a reset returns to. */
  const PLAIN := Table(Identity(), Opaque())

  class ColourTable {
    const table: array2<byte>
    const remap: array<byte>
    const transparent: array<bool>

    ghost predicate Shaped()
      reads remap
    {
      && table.Length0 == PALETTE_SIZE && table.Length1 == PALETTE_SIZE
      && remap.Length == PALETTE_SIZE && transparent.Length == PALETTE_SIZE
      && forall i :: 0 <= i < PALETTE_SIZE ==> remap[i] < 128
    }

    /** The row is what its remap and the transparency make it. */
    ghost predicate RowBuilt(src: nat)
      requires Shaped() && src < PALETTE_SIZE
      reads table, remap, transparent
    {
      forall dst :: 0 <= dst < PALETTE_SIZE ==>
        table[src, dst] == if transparent[remap[src]] then dst as byte else remap[src]
    }

    ghost predicate Valid()
      reads table, remap, transparent
    {
      Shaped() && forall src :: 0 <= src < PALETTE_SIZE ==> RowBuilt(src)
    }

    ghost function View(): (t: Table)
      requires Shaped()
      reads remap, transparent
      ensures t.Valid()
    {
      Table(remap[..], transparent[..])
    }

    constructor ()
      ensures Valid() && fresh(table) && fresh(remap) && fresh(transparent)
      ensures View() == PLAIN
    {
      table := new byte[PALETTE_SIZE, PALETTE_SIZE]((_, _) => 0);
      remap := new byte[PALETTE_SIZE](_ => 0);
      transparent := new bool[PALETTE_SIZE](_ => false);
      new;
      Reset();
    }

    method Reset()
      requires Shaped()
      modifies table, remap, transparent
      ensures Valid() && View() == PLAIN
    {
      FillIdentity();
      FillOpaque();
      RebuildAll();
    }

    method FillIdentity()
      requires Shaped()
      modifies remap
      ensures Shaped() && remap[..] == Identity()
    {
      for i := 0 to PALETTE_SIZE
        invariant Shaped() && forall k :: 0 <= k < i ==> remap[k] == k
      {
        remap[i] := i as byte;
      }
    }

    method FillOpaque()
      requires Shaped()
      modifies transparent
      ensures transparent[..] == Opaque()
    {
      for i := 0 to PALETTE_SIZE
        invariant forall k :: 0 <= k < i ==> !transparent[k]
      {
        transparent[i] := false;
      }
    }

    method RebuildAll()
      requires Shaped()
      modifies table
      ensures Valid()
    {
      for src := 0 to PALETTE_SIZE
        invariant forall s :: 0 <= s < src ==> RowBuilt(s)
      {
        RebuildRow(src);
      }
    }

    method RebuildRow(src: nat)
      requires Shaped() && src < PALETTE_SIZE
      modifies table
      ensures RowBuilt(src)
      ensures forall s :: 0 <= s < PALETTE_SIZE && s != src && old(RowBuilt(s)) ==> RowBuilt(s)
    {
      var mapped := remap[src];
      var clear := transparent[mapped];
      for dst := 0 to PALETTE_SIZE
        invariant forall d :: 0 <= d < dst ==> table[src, d] == if clear then d as byte else mapped
        invariant forall s, d :: 0 <= s < PALETTE_SIZE && 0 <= d < PALETTE_SIZE && s != src ==>
                    table[s, d] == old(table[s, d])
      {
        table[src, dst] := if clear then dst as byte else mapped;
      }
    }

    /** Draw-time remap of one colour: its row alone is rebuilt. */
    method PalMap(from: byte, to: byte)
      requires Valid()
      modifies table, remap
      ensures Valid() && View() == old(View()).(remap := old(View()).remap[from % 128 := to % 128])
    {
      label Before:
      remap[from % 128] := to % 128;
      assert forall s :: 0 <= s < PALETTE_SIZE && s != from % 128 ==> RowBuilt(s) by {
        forall s | 0 <= s < PALETTE_SIZE && s != from % 128
          ensures RowBuilt(s)
        {
          assert old@Before(RowBuilt(s));
        }
      }
      RebuildRow(from % 128);
    }

    method ClearRemap()
      requires Valid()
      modifies table, remap
      ensures Valid() && View() == old(View()).(remap := Identity())
    {
      FillIdentity();
      RebuildAll();
    }

    /** Transparency is asked of the colour drawn with: every row that is remapped
        to it changes, and no other. */
    method Palt(i: byte, clear: bool)
      requires Valid()
      modifies table, transparent
      ensures Valid() && View() == old(View()).(transparent := old(View()).transparent[i % 128 := clear])
    {
      label Before:
      transparent[i % 128] := clear;
      assert forall s :: 0 <= s < PALETTE_SIZE && remap[s] != i % 128 ==> RowBuilt(s) by {
        forall s | 0 <= s < PALETTE_SIZE && remap[s] != i % 128
          ensures RowBuilt(s)
        {
          assert old@Before(RowBuilt(s));
        }
      }
      assert transparent[..] == old(transparent[..])[i % 128 := clear];
      for src := 0 to PALETTE_SIZE
        invariant transparent[..] == old(transparent[..])[i % 128 := clear]
        invariant forall s :: 0 <= s < PALETTE_SIZE && (s < src || remap[s] != i % 128) ==> RowBuilt(s)
      {
        if remap[src] == i % 128 {
          RebuildRow(src);
        }
      }
    }

    method ClearTransparency()
      requires Valid()
      modifies table, transparent
      ensures Valid() && View() == old(View()).(transparent := Opaque())
    {
      FillOpaque();
      RebuildAll();
    }

    /** One read of the table in place of the two tables it stands for. */
    method Lookup(src: byte, dst: byte) returns (c: byte)
      requires Valid()
      ensures c == View().Lookup(src, dst)
    {
      assert RowBuilt(src % 128);
      c := table[src % 128, dst % 128];
    }
  }
}
