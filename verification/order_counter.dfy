/** The per-year order counter: one record per year holding the last sequence
    number handed out, advanced by an atomic upsert-and-increment. */
module OrderCounter {

  /** Year to last issued sequence number. A map holds at most one counter per
      year, which is what the unique index on `year` guarantees. */
  type Counters = map<nat, nat>

  /** The counter value a year starts from before its first allocation. */
  function Current(c: Counters, year: nat): nat {
    if year in c then c[year] else 0
  }

  datatype Allocation = Allocation(counters: Counters, value: nat)

  /** `getNextSequence(year)`: create the year's counter at 0 when missing, add one,
      and return the value stored. */
  function GetNextSequence(c: Counters, year: nat): (a: Allocation)
    ensures year !in c ==> a.value == 1
    ensures year in c ==> a.value == c[year] + 1
    ensures year in a.counters && a.counters[year] == a.value
    ensures a.counters.Keys == c.Keys + {year}
    ensures forall y :: y in c && y != year ==> a.counters[y] == c[y]
  {
    var v := Current(c, year) + 1;
    Allocation(c[year := v], v)
  }

  /** Two allocations in a row for one year return consecutive values. */
  lemma ConsecutiveAllocations(c: Counters, year: nat)
    ensures var first := GetNextSequence(c, year);
            GetNextSequence(first.counters, year).value == first.value + 1
  {
  }

  /** n allocations for one year, one after the other, as a sequence of returned
      values: they run densely from the old counter value plus one. */
  method AllocateRun(c: Counters, year: nat, n: nat) returns (c': Counters, values: seq<nat>)
    ensures |values| == n
    ensures forall i :: 0 <= i < n ==> values[i] == Current(c, year) + i + 1
    ensures forall i, j :: 0 <= i < j < n ==> values[i] < values[j]
    ensures Current(c', year) == Current(c, year) + n
    ensures forall y :: y != year ==> (y in c' <==> y in c)
    ensures forall y :: y in c && y != year ==> c'[y] == c[y]
  {
    c' := c;
    values := [];
    var k := 0;
    while k < n
      invariant 0 <= k <= n
      invariant |values| == k
      invariant forall i :: 0 <= i < k ==> values[i] == Current(c, year) + i + 1
      invariant Current(c', year) == Current(c, year) + k
      invariant forall y :: y != year ==> (y in c' <==> y in c)
      invariant forall y :: y in c && y != year ==> c'[y] == c[y]
    {
      var a := GetNextSequence(c', year);
      c' := a.counters;
      values := values + [a.value];
      k := k + 1;
    }
  }
}
