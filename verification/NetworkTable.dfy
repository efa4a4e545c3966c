/** The table of hardware and network addresses (src/backend_pool/util.py). */
module NetworkTable {
  import opened Common
  import opened GuestPool

  // The last two octets after 48:d2:24:bf.
  datatype Mac = Mac(fifth: byte, sixth: byte)

  const SIZE: nat := 253

  function Drawn(draws: seq<Mac>): set<Mac> {
    if draws == [] then {} else Drawn(draws[..|draws| - 1]) + {draws[|draws| - 1]}
  }

  // Different hardware addresses have different host numbers of 2 to `last`.
  ghost predicate OneToOne(table: map<Mac, int>, last: int) {
    && (forall m :: m in table ==> 2 <= table[m] <= last)
    && (forall m, n :: m in table && n in table && m != n ==> table[m] != table[n])
  }

  // Random draws until 253 differ: the first `n` are the ones that were needed.
  method DrawMacs(draws: seq<Mac>) returns (macs: set<Mac>, n: nat)
    ensures n <= |draws| && macs == Drawn(draws[..n]) && |macs| <= SIZE
    ensures |macs| < SIZE ==> n == |draws|
  {
    macs, n := {}, 0;
    while |macs| < SIZE && n < |draws|
      invariant n <= |draws| && macs == Drawn(draws[..n]) && |macs| <= SIZE
      decreases |draws| - n
    {
      assert draws[..n + 1][..n] == draws[..n];
      macs := macs + {draws[n]};
      n := n + 1;
    }
  }

  lemma {:induction false} DrawnGrows(draws: seq<Mac>, n: nat)
    requires n <= |draws|
    ensures Drawn(draws[..n]) <= Drawn(draws)
    decreases |draws| - n
  {
    if n == |draws| {
      assert draws[..n] == draws;
    } else {
      assert draws[..n + 1][..n] == draws[..n];
      DrawnGrows(draws, n + 1);
    }
  }

  lemma EmptyTable()
    ensures OneToOne(map[], 1)
  {
  }

  lemma OneMore(table: map<Mac, int>, last: int, mac: Mac)
    requires OneToOne(table, last) && mac !in table && last >= 1
    ensures OneToOne(table[mac := last + 1], last + 1)
  {
  }

  // One host number after the other, from 2 on, in any order of the set.
  method NumberMacs(macs: set<Mac>) returns (table: map<Mac, int>)
    ensures table.Keys == macs && OneToOne(table, 1 + |macs|)
  {
    hide OneToOne;
    EmptyTable();
    table := map[];
    var left, ipCounter := macs, 2;
    while left != {}
      invariant left <= macs && table.Keys == macs - left && ipCounter == 2 + |macs| - |left|
      invariant ipCounter >= 2 && OneToOne(table, ipCounter - 1)
    {
      HasMember(left);
      var mac :| mac in left;
      OneMore(table, ipCounter - 1, mac);
      table := table[mac := ipCounter];
      ipCounter := ipCounter + 1;
      left := left - {mac};
    }
  }

  /** With 253 different draws, the table gives each of them one of the host numbers 2 to
      254, no number twice; with fewer the loop never ends (None). */
  method GenerateNetworkTable(draws: seq<Mac>) returns (table: Option<map<Mac, int>>)
    ensures table.None? <==> |Drawn(draws)| < SIZE
    ensures table.Some? ==> OneToOne(table.value, 254) && table.value.Keys <= Drawn(draws) && |table.value.Keys| == SIZE
  {
    hide OneToOne, Drawn;
    var macs, n := DrawMacs(draws);
    DrawnGrows(draws, n);
    SubsetSize(macs, Drawn(draws));
    if |macs| < SIZE {
      assert draws[..n] == draws;
      return None;
    }
    var numbered := NumberMacs(macs);
    table := Some(numbered);
  }
}
