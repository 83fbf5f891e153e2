/** Fork heights, and the cuts that keep chunks and batches on one side of a fork. */
module Forks {
  import opened Wrappers
  import opened Bytes

  const MAX_INT64: uint64 := 0x7fff_ffff_ffff_ffff

  /** A named fork of the chain configuration and the block it is activated on, if any. */
  datatype Fork = Fork(name: string, block: Option<uint64>)

  ghost predicate Increasing(heights: seq<uint64>) {
    forall i, j :: 0 <= i < j < |heights| ==> heights[i] < heights[j]
  }

  // ---------- Collecting ----------

  /** The name kept for every height: of several forks at one height, the last. */
  function Names(forks: seq<Fork>): map<uint64, string> {
    if forks == [] then map[]
    else
      var front, last := Names(forks[..|forks| - 1]), forks[|forks| - 1];
      if last.block.None? then front else front[last.block.value := last.name]
  }

  /** Fork `i` is the last one at height `h`, and its name is kept. */
  ghost predicate KeptFork(forks: seq<Fork>, h: uint64, i: nat)
    requires i < |forks|
  {
    && h in Names(forks) && forks[i] == Fork(Names(forks)[h], Some(h))
    && forall j :: i < j < |forks| ==> forks[j].block != Some(h)
  }

  lemma {:induction false} NamesKeepLast(forks: seq<Fork>, h: uint64)
    ensures h in Names(forks) <==> exists i :: 0 <= i < |forks| && forks[i].block == Some(h)
    ensures h in Names(forks) ==> exists i :: 0 <= i < |forks| && KeptFork(forks, h, i)
  {
    if forks != [] {
      var front, last := forks[..|forks| - 1], forks[|forks| - 1];
      NamesKeepLast(front, h);
      assert forks == front + [last];
      if last.block == Some(h) {
        assert KeptFork(forks, h, |forks| - 1);
      } else if h in Names(front) {
        var i :| 0 <= i < |front| && KeptFork(front, h, i);
        assert KeptFork(forks, h, i);
      }
    }
  }

  method CollectNames(forks: seq<Fork>) returns (names: map<uint64, string>)
    ensures names == Names(forks)
  {
    names := map[];
    for k := 0 to |forks|
      invariant names == Names(forks[..k])
    {
      assert forks[..k + 1][..k] == forks[..k];
      if forks[k].block.None? {
        continue;
      }
      names := names[forks[k].block.value := forks[k].name];
    }
    assert forks[..|forks|] == forks;
  }

  /** Inserts a height into its place. */
  method Insert(heights: seq<uint64>, height: uint64) returns (sorted: seq<uint64>)
    requires Increasing(heights) && height !in heights
    ensures Increasing(sorted)
    ensures forall h :: h in sorted <==> h in heights || h == height
  {
    var i := 0;
    while i < |heights| && heights[i] < height
      invariant 0 <= i <= |heights|
      invariant forall j :: 0 <= j < i ==> heights[j] < height
    {
      i := i + 1;
    }
    Inserted(heights, i, height);
    sorted := heights[..i] + [height] + heights[i..];
  }

  lemma {:induction false} Inserted(heights: seq<uint64>, i: nat, height: uint64)
    requires Increasing(heights) && i <= |heights| && height !in heights
    requires forall j :: 0 <= j < i ==> heights[j] < height
    requires i < |heights| ==> height <= heights[i]
    ensures Increasing(heights[..i] + [height] + heights[i..])
    ensures forall h :: h in heights[..i] + [height] + heights[i..] <==> h in heights || h == height
  {
    var sorted := heights[..i] + [height] + heights[i..];
    forall a, b | 0 <= a < b < |sorted| ensures sorted[a] < sorted[b] {
      assert sorted[a] == if a < i then heights[a] else if a == i then height else heights[a - 1];
      assert sorted[b] == if b < i then heights[b] else if b == i then height else heights[b - 1];
      if a == i {
        assert heights[i] <= heights[b - 1];
      }
    }
    assert heights == heights[..i] + heights[i..];
  }

  method CollectSortedForkHeights(forks: seq<Fork>)
    returns (heights: seq<uint64>, heightSet: set<uint64>, nameHeights: map<string, uint64>)
    requires forall i, j :: 0 <= i < j < |forks| ==> forks[i].name != forks[j].name
    ensures Increasing(heights)
    ensures forall h :: h in heights <==> h in Names(forks)
    ensures forall h :: h in heightSet <==> h in heights
    ensures forall h :: h in heights ==> Names(forks)[h] in nameHeights && nameHeights[Names(forks)[h]] == h
    ensures forall name :: name in nameHeights ==>
      nameHeights[name] in heights && Names(forks)[nameHeights[name]] == name
  {
    hide Names, Increasing;
    var names := CollectNames(forks);
    DistinctNames(forks);
    heights, heightSet, nameHeights := [], {}, map[];
    EmptyIncreasing();
    var rest := names.Keys;
    while rest != {}
      invariant rest <= names.Keys && heightSet == names.Keys - rest
      invariant Increasing(heights) && forall h :: h in heights <==> h in heightSet
      invariant forall h :: h in heightSet ==> names[h] in nameHeights && nameHeights[names[h]] == h
      invariant forall name :: name in nameHeights ==>
        nameHeights[name] in heightSet && names[nameHeights[name]] == name
      decreases rest
    {
      var height :| height in rest;
      heightSet := heightSet + {height};
      nameHeights := nameHeights[names[height] := height];
      heights := Insert(heights, height);
      rest := rest - {height};
    }
  }

  lemma EmptyIncreasing()
    ensures Increasing([])
  {
  }

  /** Distinct forks give distinct heights distinct names. */
  lemma {:induction false} DistinctNames(forks: seq<Fork>)
    requires forall i, j :: 0 <= i < j < |forks| ==> forks[i].name != forks[j].name
    ensures forall g, h :: g in Names(forks) && h in Names(forks) && g != h ==> Names(forks)[g] != Names(forks)[h]
  {
    hide Names;
    forall g, h | g in Names(forks) && h in Names(forks) && g != h ensures Names(forks)[g] != Names(forks)[h] {
      NamesKeepLast(forks, g);
      NamesKeepLast(forks, h);
    }
  }

  // ---------- The next fork ----------

  /** The number of blocks until the next fork, zero when none is to come. */
  function UntilFork(height: uint64, heights: seq<uint64>): uint64 {
    if heights == [] then 0
    else if heights[0] > height then heights[0] - height
    else UntilFork(height, heights[1..])
  }

  method BlocksUntilFork(height: uint64, heights: seq<uint64>) returns (n: uint64)
    ensures n == UntilFork(height, heights)
  {
    for i := 0 to |heights|
      invariant UntilFork(height, heights) == UntilFork(height, heights[i..])
    {
      if heights[i] > height {
        return heights[i] - height;
      }
      assert heights[i..][1..] == heights[i + 1..];
    }
    return 0;
  }

  /** No fork is activated on a block after `a` up to `b`. */
  ghost predicate NoForkWithin(heights: seq<uint64>, a: nat, b: nat) {
    forall h :: h in heights ==> !(a < h <= b)
  }

  ghost predicate NoneAfter(heights: seq<uint64>, height: uint64) {
    forall h :: h in heights ==> h <= height
  }

  lemma {:induction false} UntilForkIsNext(height: uint64, heights: seq<uint64>)
    requires Increasing(heights)
    ensures UntilFork(height, heights) == 0 <==> NoneAfter(heights, height)
    ensures UntilFork(height, heights) != 0 ==>
      && (height + UntilFork(height, heights)) in heights
      && NoForkWithin(heights, height, height + UntilFork(height, heights) - 1)
  {
    if heights != [] {
      var rest := heights[1..];
      assert heights == [heights[0]] + rest;
      assert forall h :: h in heights <==> h == heights[0] || h in rest;
      if heights[0] <= height {
        UntilForkIsNext(height, rest);
      } else {
        assert heights[0] in heights;
      }
    }
  }

  // ---------- The range of a fork ----------

  ghost predicate IsRange(current: uint64, heights: seq<uint64>, from: uint64, to: uint64) {
    && from <= current && NoForkWithin(heights, from, current)
    && (from == 0 || from in heights)
    && (if to in heights && current < to then NoForkWithin(heights, current, to - 1)
        else to == MAX_INT64 && forall h :: h in heights ==> h <= current)
  }

  method BlockRange(current: uint64, heights: seq<uint64>) returns (from: uint64, to: uint64)
    requires Increasing(heights)
    ensures IsRange(current, heights, from, to)
  {
    to := MAX_INT64;
    from := 0;
    for i := 0 to |heights|
      invariant to == MAX_INT64 && from <= current
      invariant if i == 0 then from == 0 else from == heights[i - 1]
      invariant forall j :: 0 <= j < i ==> heights[j] <= from
    {
      if current < heights[i] {
        to := heights[i];
        return;
      }
      from := heights[i];
    }
  }

  /** Two blocks without a fork between them lie in the same range. */
  lemma {:induction false} SameRange(a: uint64, b: uint64, heights: seq<uint64>, from: uint64, to: uint64,
      from': uint64, to': uint64)
    requires a <= b && NoForkWithin(heights, a, b)
    requires IsRange(a, heights, from, to) && IsRange(b, heights, from', to')
    ensures from == from' && to == to'
  {
  }
}
