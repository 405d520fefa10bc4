/** What identifies the intent of a request: its canonical form, in which the order members were written in is gone. */
module Fingerprints {
  import opened Common

  /** A request value as the program holds it; Foreign is any value JSON has no word for. */
  datatype Json =
    | Null
    | Bool(b: bool)
    | Num(n: int)
    | Str(s: string)
    | Arr(items: seq<Json>)
    | Obj(members: seq<Member>)
    | Carries(toJson: Json)
    | Undefined
    | Foreign

  datatype Member = Member(key: string, value: Json)

  predicate Less(a: string, b: string) {
    if b == "" then false
    else if a == "" then true
    else a[0] < b[0] || (a[0] == b[0] && Less(a[1..], b[1..]))
  }

  lemma {:induction false} LessIsTotal(a: string, b: string)
    ensures Less(a, b) || Less(b, a) || a == b
    ensures !(Less(a, b) && Less(b, a)) && (a == b ==> !Less(a, b))
  {
    if a != "" && b != "" {
      LessIsTotal(a[1..], b[1..]);
      assert a == [a[0]] + a[1..] && b == [b[0]] + b[1..];
    }
  }

  /** Strings compare at the first place they differ, and one that ends there comes first. */
  lemma {:induction false} LessAtTheDifference(a: string, b: string, k: nat)
    requires k <= |a| && k <= |b| && a[..k] == b[..k] && (k < |a| && k < |b| ==> a[k] != b[k])
    ensures Less(a, b) <==> k < |b| && (k == |a| || a[k] < b[k])
  {
    if k > 0 {
      assert a[0] == a[..k][0] == b[..k][0] == b[0];
      assert a[1..][..k - 1] == a[..k][1..] && b[1..][..k - 1] == b[..k][1..];
      LessAtTheDifference(a[1..], b[1..], k - 1);
    }
  }

  lemma {:induction false} LessIsTransitive(a: string, b: string, c: string)
    requires Less(a, b) && Less(b, c)
    ensures Less(a, c)
  {
    if a != "" && a[0] == b[0] && b[0] == c[0] {
      LessIsTransitive(a[1..], b[1..], c[1..]);
    }
  }

  /** Puts one member into a list sorted by key. */
  function Inserted(m: Member, sorted: seq<Member>): seq<Member> {
    if sorted == [] then [m]
    else if Less(m.key, sorted[0].key) then [m] + sorted
    else [sorted[0]] + Inserted(m, sorted[1..])
  }

  function SortedByKey(members: seq<Member>): seq<Member> {
    if members == [] then [] else Inserted(members[0], SortedByKey(members[1..]))
  }

  /** The canonical form, or nothing when the value holds something that cannot identify an intent. */
  function Canonical(v: Json): Option<Json>
    decreases v
  {
    match v
    case Null => Some(v)
    case Bool(_) => Some(v)
    case Num(_) => Some(v)
    case Str(_) => Some(v)
    case Arr(items) =>
      var each := CanonicalItems(items);
      if each.None? then None else Some(Arr(each.value))
    case Obj(members) =>
      var each := CanonicalMembers(members);
      if each.None? then None else Some(Obj(SortedByKey(each.value)))
    case Carries(inner) => Canonical(inner)
    case Undefined => None
    case Foreign => None
  }

  function CanonicalItems(items: seq<Json>): Option<seq<Json>>
    decreases items
  {
    if items == [] then Some([])
    else
      var first, rest := Canonical(items[0]), CanonicalItems(items[1..]);
      if first.None? || rest.None? then None else Some([first.value] + rest.value)
  }

  /** A member that is undefined is not there at all. */
  function CanonicalMembers(members: seq<Member>): Option<seq<Member>>
    decreases members
  {
    if members == [] then Some([])
    else
      var rest := CanonicalMembers(members[1..]);
      if members[0].value.Undefined? then rest
      else
        var first := Canonical(members[0].value);
        if first.None? || rest.None? then None else Some([Member(members[0].key, first.value)] + rest.value)
  }

  // ---- what a request means ----

  /** The value itself: an object is what each of its keys names, in no order. */
  datatype Meaning =
    | MNull
    | MBool(b: bool)
    | MNum(n: int)
    | MStr(s: string)
    | MArr(items: seq<Meaning>)
    | MObj(members: map<string, Meaning>)

  function MeaningOf(v: Json): Option<Meaning>
    decreases v
  {
    match v
    case Null => Some(MNull)
    case Bool(b) => Some(MBool(b))
    case Num(n) => Some(MNum(n))
    case Str(s) => Some(MStr(s))
    case Arr(items) =>
      var each := MeaningOfItems(items);
      if each.None? then None else Some(MArr(each.value))
    case Obj(members) =>
      var each := MeaningOfMembers(members);
      if each.None? then None else Some(MObj(each.value))
    case Carries(inner) => MeaningOf(inner)
    case Undefined => None
    case Foreign => None
  }

  function MeaningOfItems(items: seq<Json>): Option<seq<Meaning>>
    decreases items
  {
    if items == [] then Some([])
    else
      var first, rest := MeaningOf(items[0]), MeaningOfItems(items[1..]);
      if first.None? || rest.None? then None else Some([first.value] + rest.value)
  }

  function MeaningOfMembers(members: seq<Member>): Option<map<string, Meaning>>
    decreases members
  {
    if members == [] then Some(map[])
    else
      var rest := MeaningOfMembers(members[1..]);
      if members[0].value.Undefined? then rest
      else
        var first := MeaningOf(members[0].value);
        if first.None? || rest.None? then None else Some(rest.value[members[0].key := first.value])
  }

  /** An object of the program never holds one key twice. */
  predicate Keyed(v: Json)
    decreases v
  {
    match v
    case Arr(items) => forall i | 0 <= i < |items| :: Keyed(items[i])
    case Obj(members) => DistinctKeys(members) && forall i | 0 <= i < |members| :: Keyed(members[i].value)
    case Carries(inner) => Keyed(inner)
    case _ => true
  }

  predicate DistinctKeys(members: seq<Member>) {
    forall i, j | 0 <= i < j < |members| :: members[i].key != members[j].key
  }

  predicate SortedKeys(members: seq<Member>) {
    forall i, j | 0 <= i < j < |members| :: Less(members[i].key, members[j].key)
  }

  /** A value whose objects are sorted by key and which holds nothing that JSON does not print. */
  predicate IsCanonical(v: Json)
    decreases v
  {
    match v
    case Arr(items) => forall i | 0 <= i < |items| :: IsCanonical(items[i])
    case Obj(members) => SortedKeys(members) && forall i | 0 <= i < |members| :: IsCanonical(members[i].value)
    case Carries(_) => false
    case Undefined => false
    case Foreign => false
    case _ => true
  }

  // ---- sorting keeps the members ----

  lemma {:induction false} InsertedIsSorted(m: Member, sorted: seq<Member>)
    requires SortedKeys(sorted) && forall x | x in sorted :: x.key != m.key
    ensures SortedKeys(Inserted(m, sorted))
    ensures forall x :: x in Inserted(m, sorted) <==> x == m || x in sorted
  {
    if sorted != [] {
      LessIsTotal(m.key, sorted[0].key);
      var rest := sorted[1..];
      assert forall x :: x in sorted <==> x == sorted[0] || x in rest;
      if Less(m.key, sorted[0].key) {
        forall j | 0 < j < |sorted|
          ensures Less(m.key, sorted[j].key)
        {
          LessIsTransitive(m.key, sorted[0].key, sorted[j].key);
        }
      } else {
        InsertedIsSorted(m, rest);
        var tail := Inserted(m, rest);
        forall j | 0 <= j < |tail|
          ensures Less(sorted[0].key, tail[j].key)
        {
          assert tail[j] in tail;
          assert tail[j] in rest ==> exists i :: 0 < i < |sorted| && sorted[i] == tail[j];
        }
      }
    }
  }

  lemma {:induction false} SortingSorts(members: seq<Member>)
    requires DistinctKeys(members)
    ensures SortedKeys(SortedByKey(members))
    ensures forall x :: x in SortedByKey(members) <==> x in members
  {
    if members != [] {
      var rest := members[1..];
      SortingSorts(rest);
      forall x | x in SortedByKey(rest)
        ensures x.key != members[0].key
      {
        assert x in rest;
      }
      InsertedIsSorted(members[0], SortedByKey(rest));
      assert forall x :: x in members <==> x == members[0] || x in rest;
    }
  }

  /** The meaning of a list one member longer. */
  function Added(m: Member, rest: Option<map<string, Meaning>>): Option<map<string, Meaning>> {
    if m.value.Undefined? then rest
    else if MeaningOf(m.value).None? || rest.None? then None
    else Some(rest.value[m.key := MeaningOf(m.value).value])
  }

  lemma {:induction false} AddedInFront(m: Member, rest: seq<Member>)
    ensures MeaningOfMembers([m] + rest) == Added(m, MeaningOfMembers(rest))
  {
    assert ([m] + rest)[1..] == rest;
  }

  lemma AddedInAnyOrder(a: Member, b: Member, rest: Option<map<string, Meaning>>)
    requires a.key != b.key
    ensures Added(a, Added(b, rest)) == Added(b, Added(a, rest))
  {
    var x, y := MeaningOf(a.value), MeaningOf(b.value);
    if x.Some? && y.Some? && rest.Some? {
      assert rest.value[a.key := x.value][b.key := y.value] == rest.value[b.key := y.value][a.key := x.value];
    }
  }

  lemma {:induction false} InsertingKeepsMeaning(m: Member, sorted: seq<Member>)
    requires forall x | x in sorted :: x.key != m.key
    ensures MeaningOfMembers(Inserted(m, sorted)) == MeaningOfMembers([m] + sorted)
  {
    if sorted != [] && !Less(m.key, sorted[0].key) {
      var s0, rest := sorted[0], sorted[1..];
      assert s0 in sorted && sorted == [s0] + rest;
      InsertingKeepsMeaning(m, rest);
      AddedInFront(s0, Inserted(m, rest));
      AddedInFront(m, rest);
      AddedInFront(m, sorted);
      AddedInFront(s0, rest);
      AddedInAnyOrder(m, s0, MeaningOfMembers(rest));
    }
  }

  lemma {:induction false} SortingKeepsMeaning(members: seq<Member>)
    requires DistinctKeys(members)
    ensures MeaningOfMembers(SortedByKey(members)) == MeaningOfMembers(members)
  {
    if members != [] {
      var m, rest := members[0], members[1..];
      SortingKeepsMeaning(rest);
      SortingSorts(rest);
      InsertingKeepsMeaning(m, SortedByKey(rest));
      assert ([m] + SortedByKey(rest))[1..] == SortedByKey(rest);
    }
  }

  // ---- the canonical form means what the value means ----

  lemma {:induction false} CanonicalKeepsMeaning(v: Json)
    requires Keyed(v)
    ensures Canonical(v).Some? <==> MeaningOf(v).Some?
    ensures Canonical(v).Some? ==> IsCanonical(Canonical(v).value) && MeaningOf(Canonical(v).value) == MeaningOf(v)
    decreases v
  {
    match v
    case Arr(items) => CanonicalItemsKeepMeaning(items);
    case Obj(members) =>
      CanonicalMembersKeepMeaning(members);
      var each := CanonicalMembers(members);
      if each.Some? {
        SortingSorts(each.value);
        SortingKeepsMeaning(each.value);
        var sorted := SortedByKey(each.value);
        forall i | 0 <= i < |sorted|
          ensures IsCanonical(sorted[i].value)
        {
          assert sorted[i] in each.value;
        }
      }
    case Carries(inner) => CanonicalKeepsMeaning(inner);
    case _ =>
  }

  lemma {:induction false} CanonicalItemsKeepMeaning(items: seq<Json>)
    requires forall i | 0 <= i < |items| :: Keyed(items[i])
    ensures CanonicalItems(items).Some? <==> MeaningOfItems(items).Some?
    ensures CanonicalItems(items).Some? ==>
        && (forall i | 0 <= i < |CanonicalItems(items).value| :: IsCanonical(CanonicalItems(items).value[i]))
        && MeaningOfItems(CanonicalItems(items).value) == MeaningOfItems(items)
    decreases items
  {
    if items != [] {
      CanonicalKeepsMeaning(items[0]);
      CanonicalItemsKeepMeaning(items[1..]);
      if CanonicalItems(items).Some? {
        var all := CanonicalItems(items).value;
        assert all[1..] == CanonicalItems(items[1..]).value;
      }
    }
  }

  lemma {:induction false} CanonicalMembersKeepMeaning(members: seq<Member>)
    requires DistinctKeys(members) && forall i | 0 <= i < |members| :: Keyed(members[i].value)
    ensures CanonicalMembers(members).Some? <==> MeaningOfMembers(members).Some?
    ensures CanonicalMembers(members).Some? ==>
        var all := CanonicalMembers(members).value;
        && DistinctKeys(all)
        && (forall x | x in all :: IsCanonical(x.value) && exists i :: 0 <= i < |members| && members[i].key == x.key)
        && MeaningOfMembers(all) == MeaningOfMembers(members)
    decreases members
  {
    if members != [] {
      var rest := members[1..];
      CanonicalMembersKeepMeaning(rest);
      if !members[0].value.Undefined? {
        CanonicalKeepsMeaning(members[0].value);
      }
      if CanonicalMembers(members).Some? {
        var tail := CanonicalMembers(rest).value;
        forall x | x in tail
          ensures exists i :: 0 < i < |members| && members[i].key == x.key
        {
          var i :| 0 <= i < |rest| && rest[i].key == x.key;
          assert members[i + 1] == rest[i];
        }
        if !members[0].value.Undefined? {
          var all := CanonicalMembers(members).value;
          assert all[1..] == tail;
          forall j | 0 <= j < |tail|
            ensures tail[j].key != members[0].key
          {
            assert tail[j] in tail;
          }
        }
      }
    }
  }

  // ---- one canonical form a meaning ----

  lemma {:induction false} KeysOfMeaning(members: seq<Member>, k: string)
    requires MeaningOfMembers(members).Some? && forall i | 0 <= i < |members| :: IsCanonical(members[i].value)
    ensures k in MeaningOfMembers(members).value <==> exists i :: 0 <= i < |members| && members[i].key == k
  {
    if members != [] {
      var rest := members[1..];
      KeysOfMeaning(rest, k);
      if i :| 0 <= i < |rest| && rest[i].key == k {
        assert members[i + 1].key == k;
      }
      if i :| 0 < i < |members| && members[i].key == k {
        assert rest[i - 1].key == k;
      }
    }
  }

  lemma {:induction false} SameMeaningSameForm(x: Json, y: Json)
    requires IsCanonical(x) && IsCanonical(y)
    requires MeaningOf(x).Some? && MeaningOf(x) == MeaningOf(y)
    ensures x == y
    decreases x
  {
    match x
    case Arr(items) => SameItems(items, y.items);
    case Obj(members) => SameMembers(members, y.members);
    case _ =>
  }

  lemma {:induction false} SameItems(a: seq<Json>, b: seq<Json>)
    requires forall i | 0 <= i < |a| :: IsCanonical(a[i])
    requires forall i | 0 <= i < |b| :: IsCanonical(b[i])
    requires MeaningOfItems(a).Some? && MeaningOfItems(a) == MeaningOfItems(b)
    ensures a == b
    decreases a
  {
    if a != [] && b != [] {
      assert MeaningOfItems(a).value[0] == MeaningOf(a[0]).value && MeaningOfItems(b).value[0] == MeaningOf(b[0]).value;
      assert MeaningOfItems(a).value[1..] == MeaningOfItems(a[1..]).value;
      assert MeaningOfItems(b).value[1..] == MeaningOfItems(b[1..]).value;
      SameMeaningSameForm(a[0], b[0]);
      SameItems(a[1..], b[1..]);
      assert a == [a[0]] + a[1..] && b == [b[0]] + b[1..];
    }
  }

  /** The first of two sorted lists naming the same keys carry the same key. */
  lemma {:induction false} SameFirstKey(a: seq<Member>, b: seq<Member>)
    requires SortedKeys(a) && SortedKeys(b) && a != [] && b != []
    requires forall i | 0 <= i < |a| :: IsCanonical(a[i].value)
    requires forall i | 0 <= i < |b| :: IsCanonical(b[i].value)
    requires MeaningOfMembers(a).Some? && MeaningOfMembers(a) == MeaningOfMembers(b)
    ensures a[0].key == b[0].key
  {
    KeysOfMeaning(a, a[0].key);
    KeysOfMeaning(b, a[0].key);
    KeysOfMeaning(a, b[0].key);
    KeysOfMeaning(b, b[0].key);
    var j :| 0 <= j < |b| && b[j].key == a[0].key;
    var i :| 0 <= i < |a| && a[i].key == b[0].key;
    if i > 0 && j > 0 {
      LessIsTotal(a[0].key, b[0].key);
      assert false;
    }
  }

  lemma {:induction false} SameMembers(a: seq<Member>, b: seq<Member>)
    requires SortedKeys(a) && SortedKeys(b)
    requires forall i | 0 <= i < |a| :: IsCanonical(a[i].value)
    requires forall i | 0 <= i < |b| :: IsCanonical(b[i].value)
    requires MeaningOfMembers(a).Some? && MeaningOfMembers(a) == MeaningOfMembers(b)
    ensures a == b
    decreases a
  {
    if a == [] || b == [] {
      if a != [] {
        KeysOfMeaning(a, a[0].key);
      }
      if b != [] {
        KeysOfMeaning(b, b[0].key);
      }
    } else {
      SameFirstKey(a, b);
      var key, m := a[0].key, MeaningOfMembers(a).value;
      assert MeaningOf(a[0].value) == Some(m[key]) && MeaningOf(b[0].value) == Some(m[key]);
      SameMeaningSameForm(a[0].value, b[0].value);
      TailMeaning(a);
      TailMeaning(b);
      SameMembers(a[1..], b[1..]);
      assert a == [a[0]] + a[1..] && b == [b[0]] + b[1..];
    }
  }

  lemma {:induction false} TailMeaning(a: seq<Member>)
    requires SortedKeys(a) && a != [] && MeaningOfMembers(a).Some?
    requires forall i | 0 <= i < |a| :: IsCanonical(a[i].value)
    ensures MeaningOfMembers(a[1..]) == Some(MeaningOfMembers(a).value - {a[0].key})
  {
    var rest := MeaningOfMembers(a[1..]).value;
    KeysOfMeaning(a[1..], a[0].key);
    if i :| 0 <= i < |a[1..]| && a[1..][i].key == a[0].key {
      LessIsTotal(a[0].key, a[i + 1].key);
      assert false;
    }
    assert rest[a[0].key := MeaningOf(a[0].value).value] - {a[0].key} == rest;
  }

  /** Two requests share a canonical form exactly when they mean the same, in whatever order they were written. */
  lemma {:induction false} FingerprintIsMeaning(x: Json, y: Json)
    requires Keyed(x) && Keyed(y) && Canonical(x).Some? && Canonical(y).Some?
    ensures Canonical(x) == Canonical(y) <==> MeaningOf(x) == MeaningOf(y)
  {
    CanonicalKeepsMeaning(x);
    CanonicalKeepsMeaning(y);
    if MeaningOf(x) == MeaningOf(y) {
      SameMeaningSameForm(Canonical(x).value, Canonical(y).value);
    }
  }
}
