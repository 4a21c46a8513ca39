/** The name table: strings are interned to dense integer ids given by their
    position in an append-only list, and error codes are handed out in
    consecutive ranges. The queries are pure functions of the list; lookup
    and unique_error_codes change the table and live in the class Names. */
module NameTable {

  datatype Option<T> = None | Some(value: T)

  /** No string occurs twice in the table. */
  predicate NoDuplicates<T(==)>(t: seq<T>) {
    forall i, j :: 0 <= i < j < |t| ==> t[i] != t[j]
  }

  /** Python's list.index: the position of the first occurrence. */
  function IndexOf<T(==)>(t: seq<T>, s: T): (i: nat)
    requires s in t
    ensures i < |t| && t[i] == s
    ensures s !in t[..i]
  {
    if t[0] == s then 0
    else
      var k := IndexOf(t[1..], s);
      assert t[..k + 1] == [t[0]] + t[1..][..k];
      k + 1
  }

  /** query: the id of s, or None when s is not in the table. */
  function Query<T(==)>(t: seq<T>, s: T): (r: Option<nat>)
    ensures r.None? <==> s !in t
    ensures r.Some? ==> r.value < |t| && t[r.value] == s
  {
    if s in t then Some(IndexOf(t, s)) else None
  }

  /** get_name_string: the string with the given id, or None outside [0, |t|). */
  function NameString<T(==)>(t: seq<T>, id: int): (r: Option<T>)
    ensures r.Some? <==> 0 <= id < |t|
    ensures r.Some? ==> r.value == t[id]
  {
    if 0 <= id < |t| then Some(t[id]) else None
  }

  /** In a table without duplicates, query and get_name_string are inverse:
      an id names s exactly when s queries to that id. */
  lemma QueryNameStringInverse<T>(t: seq<T>, s: T, id: int)
    requires NoDuplicates(t)
    ensures Query(t, s) == Some(id) <==> NameString(t, id) == Some(s)
  {
    if NameString(t, id) == Some(s) {
      var i := IndexOf(t, s);
      assert t[i] == t[id];
    }
  }

  /** The table and id after looking up one string. */
  datatype Interned<T> = Interned(table: seq<T>, id: nat)

  /** lookup of a single string: append it when absent, then query it. */
  function Intern<T(==)>(t: seq<T>, s: T): (r: Interned<T>)
    ensures r.table == if s in t then t else t + [s]
    ensures r.id < |r.table| && r.table[r.id] == s
  {
    var t' := if s in t then t else t + [s];
    Interned(t', IndexOf(t', s))
  }

  /** Interning keeps the table free of duplicates and never moves an id;
      a new string gets the next free id. */
  lemma InternKeepsTable<T>(t: seq<T>, s: T)
    requires NoDuplicates(t)
    ensures NoDuplicates(Intern(t, s).table)
    ensures t <= Intern(t, s).table
    ensures s in t ==> Intern(t, s).id == IndexOf(t, s)
    ensures s !in t ==> Intern(t, s).id == |t|
  {
    var r := Intern(t, s);
    if s !in t {
      assert r.table == t + [s];
      forall i, j | 0 <= i < j < |r.table| ensures r.table[i] != r.table[j] {
        if j < |t| {
          assert r.table[i] == t[i] && r.table[j] == t[j];
        } else {
          assert r.table[i] == t[i];
        }
      }
    }
  }

  /** A second lookup of the same string returns the same id and leaves the
      table as the first one left it. */
  lemma {:induction false} InternIdempotent<T>(t: seq<T>, s: T)
    ensures Intern(Intern(t, s).table, s) == Intern(t, s)
  {
    assert s in Intern(t, s).table;
  }

  /** The result of looking up a list of strings. */
  datatype InternedList<T> = InternedList(table: seq<T>, ids: seq<nat>)

  /** lookup of a list: each string in turn, ids returned in input order. */
  function InternAll<T(==)>(t: seq<T>, ss: seq<T>): (r: InternedList<T>)
    ensures |r.ids| == |ss|
    ensures t <= r.table
    decreases |ss|
  {
    if ss == [] then InternedList(t, [])
    else
      var first := Intern(t, ss[0]);
      var rest := InternAll(first.table, ss[1..]);
      InternedList(rest.table, [first.id] + rest.ids)
  }

  /** Each id of a list lookup names the string at the same position. */
  lemma {:induction false} InternAllId<T>(t: seq<T>, ss: seq<T>, k: nat)
    requires k < |ss|
    ensures var r := InternAll(t, ss); r.ids[k] < |r.table| && r.table[r.ids[k]] == ss[k]
    decreases k
  {
    if k == 0 {
      InternAllFirstId(t, ss);
    } else {
      var first := Intern(t, ss[0]);
      var r, rest := InternAll(t, ss), InternAll(first.table, ss[1..]);
      InternAllId(first.table, ss[1..], k - 1);
      InternAllTail(t, ss, k);
      assert r.table == rest.table;
      assert rest.table[rest.ids[k - 1]] == ss[1..][k - 1] == ss[k];
    }
  }

  /** InternAllId at every position. */
  lemma InternAllIds<T>(t: seq<T>, ss: seq<T>)
    ensures forall k :: 0 <= k < |ss| ==>
              InternAll(t, ss).ids[k] < |InternAll(t, ss).table| && InternAll(t, ss).table[InternAll(t, ss).ids[k]] == ss[k]
  {
    forall k | 0 <= k < |ss|
      ensures InternAll(t, ss).ids[k] < |InternAll(t, ss).table| && InternAll(t, ss).table[InternAll(t, ss).ids[k]] == ss[k]
    {
      InternAllId(t, ss, k);
    }
  }

  /** The first id of a list lookup is that of its first string, and it stays valid. */
  lemma InternAllFirstId<T>(t: seq<T>, ss: seq<T>)
    requires ss != []
    ensures InternAll(t, ss).ids[0] == Intern(t, ss[0]).id
    ensures InternAll(t, ss).table[Intern(t, ss[0]).id] == ss[0]
  {
    var first := Intern(t, ss[0]);
    var rest := InternAll(first.table, ss[1..]);
    assert rest.table[first.id] == first.table[first.id];
  }

  /** After a list lookup the table holds every string of the list and every
      string it held before. */
  lemma InternAllContains<T>(t: seq<T>, ss: seq<T>)
    ensures forall x :: x in ss ==> x in InternAll(t, ss).table
    ensures forall x :: x in t ==> x in InternAll(t, ss).table
  {
    InternAllIds(t, ss);
    var r := InternAll(t, ss);
    forall x | x in ss ensures x in r.table {
      var k :| 0 <= k < |ss| && ss[k] == x;
      assert r.table[r.ids[k]] == x;
    }
  }

  /** Every entry a list lookup appends comes from the list and was absent before. */
  lemma {:induction false} InternAllAppendsFromList<T>(t: seq<T>, ss: seq<T>)
    ensures forall i :: |t| <= i < |InternAll(t, ss).table| ==>
              InternAll(t, ss).table[i] in ss && InternAll(t, ss).table[i] !in t
    decreases |ss|
  {
    if ss != [] {
      var first := Intern(t, ss[0]);
      var r := InternAll(t, ss);
      var rest := InternAll(first.table, ss[1..]);
      assert r.table == rest.table;
      InternAllAppendsFromList(first.table, ss[1..]);
      forall i | |t| <= i < |r.table| ensures r.table[i] in ss && r.table[i] !in t {
        if i < |first.table| {
          assert r.table[i] == first.table[i] == ss[0];
        } else {
          assert r.table[i] in ss[1..] && r.table[i] !in first.table;
        }
      }
    }
  }

  /** Looking up a list keeps the table free of duplicates. */
  lemma {:induction false} InternAllKeepsNoDuplicates<T>(t: seq<T>, ss: seq<T>)
    requires NoDuplicates(t)
    ensures NoDuplicates(InternAll(t, ss).table)
    decreases |ss|
  {
    if ss != [] {
      InternKeepsTable(t, ss[0]);
      InternAllKeepsNoDuplicates(Intern(t, ss[0]).table, ss[1..]);
    }
  }

  /** Two list lookups in a row keep the old table as a prefix, know every
      string of both lists, keep the table free of duplicates and append only
      strings of the two lists. */
  lemma InternTwoLists<T>(t: seq<T>, a: seq<T>, b: seq<T>)
    ensures var table := InternAll(InternAll(t, a).table, b).table;
      && t <= table
      && (forall x :: x in a ==> x in table)
      && (forall x :: x in b ==> x in table)
      && (NoDuplicates(t) ==> NoDuplicates(table))
      && (forall i :: |t| <= i < |table| ==> table[i] in a || table[i] in b)
  {
    var t1 := InternAll(t, a).table;
    var table := InternAll(t1, b).table;
    InternAllContains(t, a);
    InternAllContains(t1, b);
    InternAllAppendsFromList(t, a);
    InternAllAppendsFromList(t1, b);
    forall i | |t| <= i < |table| ensures table[i] in a || table[i] in b {
      if i < |t1| {
        assert table[i] == t1[i];
      }
    }
    if NoDuplicates(t) {
      InternAllKeepsNoDuplicates(t, a);
      InternAllKeepsNoDuplicates(t1, b);
    }
  }

  /** A string that was absent gets an id at or past the old end of the table. */
  lemma NewStringIdAtEnd<T>(t: seq<T>, ss: seq<T>, k: nat)
    requires k < |ss| && ss[k] !in t
    ensures InternAll(t, ss).ids[k] >= |t|
  {
    InternAllIds(t, ss);
  }

  /** A string occurring again as the first string gets the first string's id. */
  lemma RepeatOfFirstSharesId<T>(t: seq<T>, ss: seq<T>, k: nat)
    requires NoDuplicates(t)
    requires 0 < k < |ss| && ss[k] == ss[0]
    ensures InternAll(t, ss).ids[k] == InternAll(t, ss).ids[0]
  {
    var r := InternAll(t, ss);
    InternAllIds(t, ss);
    InternAllFirstId(t, ss);
    InternAllKeepsNoDuplicates(t, ss);
    assert r.table[r.ids[k]] == r.table[r.ids[0]];
  }

  /** Absent strings are appended in the order of their first occurrence in
      the list: a later first occurrence gets a larger id. */
  lemma InternAllAppendsInOrder<T>(t: seq<T>, ss: seq<T>, k1: nat, k2: nat)
    requires NoDuplicates(t)
    requires k1 < k2 < |ss| && ss[k1] !in t && ss[k2] !in t && ss[k2] !in ss[..k2]
    ensures InternAll(t, ss).ids[k1] < InternAll(t, ss).ids[k2]
  {
    InternAllNewIdsMonotone(t, ss, k1, k2);
    InternAllId(t, ss, k1);
    InternAllId(t, ss, k2);
    assert ss[k1] == ss[..k2][k1];
  }

  /** The non-strict half of InternAllAppendsInOrder, by induction on the list. */
  lemma {:induction false} InternAllNewIdsMonotone<T>(t: seq<T>, ss: seq<T>, k1: nat, k2: nat)
    requires NoDuplicates(t)
    requires k1 < k2 < |ss| && ss[k1] !in t && ss[k2] !in t && ss[k2] !in ss[..k2]
    ensures InternAll(t, ss).ids[k1] <= InternAll(t, ss).ids[k2]
    decreases |ss|
  {
    if k1 == 0 || ss[k1] == ss[0] {
      NewStringIdAtEnd(t, ss, k2);
      InternKeepsTable(t, ss[0]);
      if k1 != 0 {
        RepeatOfFirstSharesId(t, ss, k1);
      }
    } else {
      var first, tail := Intern(t, ss[0]), ss[1..];
      TailKeepsOrderPremises(t, ss, k1, k2);
      InternAllNewIdsMonotone(first.table, tail, k1 - 1, k2 - 1);
      InternAllTail(t, ss, k1);
      InternAllTail(t, ss, k2);
    }
  }

  /** The premises of InternAllNewIdsMonotone carry over to the rest of the list
      once its first string, different from both, is interned. */
  lemma TailKeepsOrderPremises<T>(t: seq<T>, ss: seq<T>, k1: nat, k2: nat)
    requires NoDuplicates(t)
    requires 0 < k1 < k2 < |ss| && ss[k1] !in t && ss[k2] !in t && ss[k2] !in ss[..k2]
    requires ss[k1] != ss[0]
    ensures var t1, tail := Intern(t, ss[0]).table, ss[1..];
      NoDuplicates(t1) && tail[k1 - 1] !in t1 && tail[k2 - 1] !in t1 && tail[k2 - 1] !in tail[..k2 - 1]
  {
    InternKeepsTable(t, ss[0]);
    var tail := ss[1..];
    assert ss[0] in ss[..k2];
    assert tail[..k2 - 1] == ss[..k2][1..];
  }

  /** One step of a list lookup, at position k of the list. */
  lemma InternAllStep<T>(t: seq<T>, ss: seq<T>, k: nat)
    requires k < |ss|
    ensures InternAll(t, ss[k..]).table == InternAll(Intern(t, ss[k]).table, ss[k + 1..]).table
    ensures InternAll(t, ss[k..]).ids == [Intern(t, ss[k]).id] + InternAll(Intern(t, ss[k]).table, ss[k + 1..]).ids
  {
    assert ss[k..][1..] == ss[k + 1..];
  }

  /** Past the first string, a list lookup continues from the table the first left. */
  lemma InternAllTail<T>(t: seq<T>, ss: seq<T>, k: nat)
    requires 0 < k < |ss|
    ensures InternAll(t, ss).ids[k] == InternAll(Intern(t, ss[0]).table, ss[1..]).ids[k - 1]
  {
  }

  lemma ConcatAssociative<T>(a: seq<T>, b: seq<T>, c: seq<T>)
    ensures (a + b) + c == a + (b + c)
  {
  }

  /** The ids [lo, hi) in increasing order, as Python's range(lo, hi). */
  function Range(lo: nat, hi: nat): (r: seq<nat>)
    ensures |r| == if lo <= hi then hi - lo else 0
    ensures forall k :: 0 <= k < |r| ==> r[k] == lo + k
    decreases hi - lo
  {
    if lo < hi then [lo] + Range(lo + 1, hi) else []
  }

  /** The outcome of unique_error_codes: a range of fresh codes, or the
      ValueError raised for a count that is not positive. */
  datatype CodeAllocation = Granted(codes: seq<nat>) | NotPositive

  /** Two successive allocations give contiguous, disjoint ranges. */
  lemma {:induction false} SuccessiveRangesDisjoint(count: nat, n1: nat, n2: nat)
    ensures var a, b := Range(count, count + n1), Range(count + n1, count + n1 + n2);
      forall i, j :: 0 <= i < |a| && 0 <= j < |b| ==> a[i] != b[j]
    ensures Range(count, count + n1) + Range(count + n1, count + n1 + n2) == Range(count, count + n1 + n2)
  {
    var a, b, c := Range(count, count + n1), Range(count + n1, count + n1 + n2), Range(count, count + n1 + n2);
    assert |a + b| == |c|;
    forall k | 0 <= k < |c| ensures (a + b)[k] == c[k] {
      if k >= |a| { assert (a + b)[k] == b[k - |a|]; }
    }
  }

  /** The length of the longest common prefix of two strings. */
  function PrefixLength(a: string, b: string): (r: nat)
    ensures r <= |a| && r <= |b|
    ensures a[..r] == b[..r]
    ensures r < |a| && r < |b| ==> a[r] != b[r]
  {
    if a == [] || b == [] || a[0] != b[0] then 0
    else
      var k := PrefixLength(a[1..], b[1..]);
      assert a[..k + 1] == [a[0]] + a[1..][..k];
      assert b[..k + 1] == [b[0]] + b[1..][..k];
      k + 1
  }

  /** common_prefix_length: scans both strings up to the shorter length and
      returns the first index where they differ, or that length. */
  method CommonPrefixLength(string1: string, string2: string) returns (r: nat)
    ensures r == PrefixLength(string1, string2)
  {
    var minLen := if |string1| < |string2| then |string1| else |string2|;
    for i := 0 to minLen
      invariant string1[..i] == string2[..i]
    {
      if string1[i] != string2[i] {
        PrefixLengthUnique(string1, string2, i);
        return i;
      }
      assert string1[..i + 1] == string1[..i] + [string1[i]];
      assert string2[..i + 1] == string2[..i] + [string2[i]];
    }
    PrefixLengthUnique(string1, string2, minLen);
    r := minLen;
  }

  /** The three properties of PrefixLength determine it. */
  lemma PrefixLengthUnique(a: string, b: string, n: nat)
    requires n <= |a| && n <= |b| && a[..n] == b[..n]
    requires n < |a| && n < |b| ==> a[n] != b[n]
    ensures PrefixLength(a, b) == n
  {
  }

  /** get_recommend_raw: the table entries sharing a non-empty prefix with target. */
  function RecommendRaw(t: seq<string>, target: string): (r: seq<string>)
    ensures |r| <= |t|
    ensures forall x :: x in r <==> x in t && PrefixLength(x, target) > 0
  {
    if t == [] then []
    else
      var rest := RecommendRaw(t[1..], target);
      assert forall x :: x in t <==> x == t[0] || x in t[1..];
      if PrefixLength(t[0], target) > 0 then [t[0]] + rest else rest
  }

  /** The recommendations keep table order: filtering a concatenation is the
      concatenation of the filtered parts. */
  lemma {:induction false} RecommendRawKeepsOrder(t1: seq<string>, t2: seq<string>, target: string)
    ensures RecommendRaw(t1 + t2, target) == RecommendRaw(t1, target) + RecommendRaw(t2, target)
    decreases |t1|
  {
    if t1 == [] {
      assert t1 + t2 == t2;
    } else {
      assert (t1 + t2)[1..] == t1[1..] + t2;
      RecommendRawKeepsOrder(t1[1..], t2, target);
    }
  }

  /** A prefix length is positive exactly when both strings start with the same character. */
  lemma PrefixLengthPositive(a: string, b: string)
    ensures PrefixLength(a, b) > 0 <==> |a| > 0 && |b| > 0 && a[0] == b[0]
  {
  }

  /** The mutable table of the source: name_list and error_code_count. */
  class Names {
    var errorCodeCount: nat
    var nameList: seq<string>

    ghost predicate Valid()
      reads this
    {
      NoDuplicates(nameList)
    }

    constructor ()
      ensures Valid()
      ensures nameList == [] && errorCodeCount == 0
    {
      errorCodeCount := 0;
      nameList := [];
    }

    /** unique_error_codes: n fresh consecutive codes after those already
        issued; a count that is not positive is rejected and changes nothing. */
    method UniqueErrorCodes(numErrorCodes: int) returns (r: CodeAllocation)
      modifies this`errorCodeCount
      ensures numErrorCodes <= 0 ==> r == NotPositive && errorCodeCount == old(errorCodeCount)
      ensures numErrorCodes > 0 ==>
                r == Granted(Range(old(errorCodeCount), old(errorCodeCount) + numErrorCodes)) &&
                errorCodeCount == old(errorCodeCount) + numErrorCodes
    {
      if numErrorCodes <= 0 {
        return NotPositive;
      }
      errorCodeCount := errorCodeCount + numErrorCodes;
      r := Granted(Range(errorCodeCount - numErrorCodes, errorCodeCount));
    }

    /** lookup of one string: its id, appending it first when absent. */
    method Lookup(nameString: string) returns (id: nat)
      requires Valid()
      modifies this`nameList
      ensures Valid()
      ensures Interned(nameList, id) == Intern(old(nameList), nameString)
    {
      InternKeepsTable(nameList, nameString);
      if nameString !in nameList {
        nameList := nameList + [nameString];
      }
      id := IndexOf(nameList, nameString);
    }

    /** lookup of a list: ids in input order, absent strings appended in turn. */
    method LookupAll(nameStrings: seq<string>) returns (ids: seq<nat>)
      requires Valid()
      modifies this`nameList
      ensures Valid()
      ensures InternedList(nameList, ids) == InternAll(old(nameList), nameStrings)
    {
      ids := [];
      ghost var goal := InternAll(nameList, nameStrings);
      for k := 0 to |nameStrings|
        invariant Valid()
        invariant goal.table == InternAll(nameList, nameStrings[k..]).table
        invariant goal.ids == ids + InternAll(nameList, nameStrings[k..]).ids
      {
        InternAllStep(nameList, nameStrings, k);
        var id := Lookup(nameStrings[k]);
        ConcatAssociative(ids, [id], InternAll(nameList, nameStrings[k + 1..]).ids);
        ids := ids + [id];
      }
      assert nameStrings[|nameStrings|..] == [];
    }
  }

  /** A client of Names: looking the same string up twice gives the same id
      and the second lookup does not grow the table. */
  method LookupTwice(names: Names, s: string) returns (first: nat, second: nat)
    requires names.Valid()
    modifies names`nameList
    ensures first == second
    ensures names.nameList == if s in old(names.nameList) then old(names.nameList) else old(names.nameList) + [s]
  {
    first := names.Lookup(s);
    ghost var afterFirst := names.nameList;
    second := names.Lookup(s);
    InternIdempotent(old(names.nameList), s);
  }
}
