// The tables of the standard that name bits, counting from one, and that each of them
// names every bit once.
module DesTables {
  import opened DesWords

  const IP_ROWS: seq<seq<nat>> := [
    [58, 50, 42, 34, 26, 18, 10, 2],
    [60, 52, 44, 36, 28, 20, 12, 4],
    [62, 54, 46, 38, 30, 22, 14, 6],
    [64, 56, 48, 40, 32, 24, 16, 8],
    [57, 49, 41, 33, 25, 17, 9, 1],
    [59, 51, 43, 35, 27, 19, 11, 3],
    [61, 53, 45, 37, 29, 21, 13, 5],
    [63, 55, 47, 39, 31, 23, 15, 7]]

  // Where each bit, from the first on, is in the table above.
  const IP_PLACES: seq<seq<nat>> := [
    [39, 7, 47, 15, 55, 23, 63, 31],
    [38, 6, 46, 14, 54, 22, 62, 30],
    [37, 5, 45, 13, 53, 21, 61, 29],
    [36, 4, 44, 12, 52, 20, 60, 28],
    [35, 3, 43, 11, 51, 19, 59, 27],
    [34, 2, 42, 10, 50, 18, 58, 26],
    [33, 1, 41, 9, 49, 17, 57, 25],
    [32, 0, 40, 8, 48, 16, 56, 24]]

  const PBOX_ROWS: seq<seq<nat>> := [
    [16, 7, 20, 21, 29, 12, 28, 17],
    [1, 15, 23, 26, 5, 18, 31, 10],
    [2, 8, 24, 14, 32, 27, 3, 9],
    [19, 13, 30, 6, 22, 11, 4, 25]]

  // Where each bit, from the first on, is in the table above.
  const PBOX_PLACES: seq<seq<nat>> := [
    [8, 16, 22, 30, 12, 27, 1, 17],
    [23, 15, 29, 5, 25, 19, 9, 0],
    [7, 13, 24, 2, 3, 28, 10, 18],
    [31, 11, 21, 6, 4, 26, 14, 20]]

  function At(rows: seq<seq<nat>>, i: nat): nat
    requires i / 8 < |rows| && |rows[i / 8]| == 8
  {
    rows[i / 8][i % 8]
  }

  lemma IpPlace(r: nat, c: nat)
    requires r < 8 && c < 8
    ensures |IP_ROWS| == 8 && |IP_ROWS[r]| == 8 && |IP_PLACES| == 8
    ensures var x := IP_ROWS[r][c]; 1 <= x <= 64 && |IP_PLACES[(x - 1) / 8]| == 8 && At(IP_PLACES, x - 1) == 8 * r + c
  {
  }

  lemma PboxPlace(r: nat, c: nat)
    requires r < 4 && c < 8
    ensures |PBOX_ROWS| == 4 && |PBOX_ROWS[r]| == 8 && |PBOX_PLACES| == 4
    ensures var x := PBOX_ROWS[r][c]; 1 <= x <= 32 && |PBOX_PLACES[(x - 1) / 8]| == 8 && At(PBOX_PLACES, x - 1) == 8 * r + c
  {
  }

  const IP: seq<nat> := seq(64, i requires 0 <= i < 64 => IpEntry(i))

  const PBOX: seq<nat> := seq(32, i requires 0 <= i < 32 => PboxEntry(i))

  function IpEntry(i: nat): nat
    requires i < 64
  {
    IpPlace(i / 8, i % 8);
    At(IP_ROWS, i)
  }

  function PboxEntry(i: nat): nat
    requires i < 32
  {
    PboxPlace(i / 8, i % 8);
    At(PBOX_ROWS, i)
  }

  ghost predicate NamesOnce(table: seq<nat>) {
    && (forall i :: 0 <= i < |table| ==> 1 <= table[i] <= |table|)
    && (forall i, j :: 0 <= i < j < |table| ==> table[i] != table[j])
  }

  lemma IpNamesOnce()
    ensures NamesOnce(IP)
  {
    forall i, j | 0 <= i < j < 64 ensures 1 <= IP[i] <= 64 && 1 <= IP[j] <= 64 && IP[i] != IP[j] {
      IpPlace(i / 8, i % 8);
      IpPlace(j / 8, j % 8);
    }
  }

  lemma PboxNamesOnce()
    ensures NamesOnce(PBOX)
  {
    forall i, j | 0 <= i < j < 32 ensures 1 <= PBOX[i] <= 32 && 1 <= PBOX[j] <= 32 && PBOX[i] != PBOX[j] {
      PboxPlace(i / 8, i % 8);
      PboxPlace(j / 8, j % 8);
    }
  }

  // The loops that invert a table, with its entries taken down by one.
  method Invert(table: seq<nat>) returns (down: seq<nat>, inverse: seq<nat>)
    requires NamesOnce(table)
    ensures |down| == |inverse| == |table|
    ensures forall i :: 0 <= i < |table| ==> down[i] == table[i] - 1 && inverse[down[i]] == i
  {
    down, inverse := seq(|table|, _ => 0), seq(|table|, _ => 0);
    for i := 0 to |table|
      invariant |down| == |inverse| == |table|
      invariant forall j :: 0 <= j < i ==> down[j] == table[j] - 1 && inverse[down[j]] == j
    {
      var x := table[i] - 1;
      down := down[i := x];
      inverse := inverse[x := i];
    }
  }

  // Because every bit is named, that is an inverse both ways.
  lemma InverseBothWays(down: seq<nat>, inverse: seq<nat>, x: nat)
    requires |down| == |inverse| && x < |down|
    requires forall i :: 0 <= i < |down| ==> down[i] < |down| && inverse[down[i]] == i
    ensures inverse[x] < |down| && down[inverse[x]] == x
  {
    var places := Values(down, |down|);
    Injective(down, inverse, |down|);
    forall y | y in places ensures y < |down| {
      ValueAt(down, inverse, |down|, y);
    }
    BelowIs(places, |down|);
    ValueAt(down, inverse, |down|, x);
  }

  ghost function Below(n: nat): set<nat> {
    if n == 0 then {} else Below(n - 1) + {n - 1}
  }

  lemma {:induction false} BelowSize(n: nat)
    ensures |Below(n)| == n && forall x: nat :: x in Below(n) <==> x < n
  {
    if n > 0 {
      BelowSize(n - 1);
    }
  }

  lemma BelowIs(s: set<nat>, n: nat)
    requires |s| == n && forall x <- s :: x < n
    ensures forall x: nat | x < n :: x in s
  {
    BelowSize(n);
    assert s <= Below(n);
    assert Below(n) == s + (Below(n) - s);
    assert |Below(n)| == |s| + |Below(n) - s|;
  }

  ghost function Values(down: seq<nat>, n: nat): set<nat>
    requires n <= |down|
  {
    if n == 0 then {} else Values(down, n - 1) + {down[n - 1]}
  }

  lemma {:induction false} ValueAt(down: seq<nat>, inverse: seq<nat>, n: nat, x: nat)
    requires n <= |down| == |inverse| && x in Values(down, n)
    requires forall i :: 0 <= i < |down| ==> down[i] < |down| && inverse[down[i]] == i
    ensures x < |down| && inverse[x] < n && down[inverse[x]] == x
  {
    if x != down[n - 1] {
      ValueAt(down, inverse, n - 1, x);
    }
  }

  lemma {:induction false} Injective(down: seq<nat>, inverse: seq<nat>, n: nat)
    requires n <= |down| == |inverse|
    requires forall i :: 0 <= i < |down| ==> down[i] < |down| && inverse[down[i]] == i
    ensures |Values(down, n)| == n
  {
    if n > 0 {
      Injective(down, inverse, n - 1);
      if down[n - 1] in Values(down, n - 1) {
        ValueAt(down, inverse, n - 1, down[n - 1]);
      }
    }
  }
}
