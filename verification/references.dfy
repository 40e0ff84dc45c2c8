/**
 Collection of cross-resource references from a resource's `expressions`
 tree (`extractReferencesFromExpressions`, src/utils/parsePlan.ts).

 The walk visits an object's own `references` array first and then each
 member value in order (pre-order); arrays are walked element by element;
 scalars contribute nothing. Every string entry of a `references` array that
 does not start with `var.` or `local.` is collected; duplicates are kept.
 */
module References {
  import opened Collections
  import opened Text
  import opened Json

  /** Not a variable or local-value reference. */
  predicate IsResourceReference(s: string) {
    !StartsWith(s, "var.") && !StartsWith(s, "local.")
  }

  /** The kept string entries of one `references` array, in order. */
  function KeptStrings(items: seq<Json>): (r: seq<string>)
  {
    if items == [] then []
    else
      var last := items[|items| - 1];
      KeptStrings(items[..|items| - 1])
        + (if last.JStr? && IsResourceReference(last.str) then [last.str] else [])
  }

  /** What an object contributes itself, before its members are visited. */
  function OwnReferences(record: Record): (r: seq<string>)
  {
    match Get(record, "references")
    case Some(JArr(items)) => KeptStrings(items)
    case _ => []
  }

  /** All references collected from `j`, in the order the walk finds them. */
  function Refs(j: Json): (r: seq<string>)
    decreases j
  {
    match j
    case JArr(items) => ItemRefs(items)
    case JObj(members) => OwnReferences(members) + MemberRefs(j, |members|)
    case _ => []
  }

  /** The references found in the first elements of an array, in order. */
  function ItemRefs(items: seq<Json>): (r: seq<string>)
    decreases items
  {
    if items == [] then [] else ItemRefs(items[..|items| - 1]) + Refs(items[|items| - 1])
  }

  /** The references found in the values of the first `n` members of an object. */
  function MemberRefs(owner: Json, n: nat): (r: seq<string>)
    requires owner.JObj? && n <= |owner.members|
    decreases owner, n
  {
    if n == 0 then [] else MemberRefs(owner, n - 1) + Refs(owner.members[n - 1].1)
  }

  /** `extractReferencesFromExpressions(expressions)`. */
  method ExtractReferencesFromExpressions(expressions: Record) returns (refs: seq<string>)
    ensures refs == Refs(JObj(expressions))
    ensures forall i :: 0 <= i < |refs| ==> IsResourceReference(refs[i])
    ensures forall x :: x in refs <==> RefEntry(JObj(expressions), x)
  {
    refs := Traverse(JObj(expressions), []);
    OnlyResourceReferences(JObj(expressions));
    forall x
      ensures x in refs <==> RefEntry(JObj(expressions), x)
    {
      RefsIff(JObj(expressions), x);
    }
  }

  /** The inner `traverse`: appends what `obj` contributes to `refs0`. */
  method Traverse(obj: Json, refs0: seq<string>) returns (refs: seq<string>)
    ensures refs == refs0 + Refs(obj)
    decreases obj, 1
  {
    match obj
    case JArr(items) =>
      refs := TraverseItems(obj, refs0);
    case JObj(members) =>
      refs := CollectOwn(members, refs0);
      refs := TraverseMembers(obj, refs);
      AppendAssoc(refs0, OwnReferences(members), MemberRefs(obj, |members|));
    case _ =>
      refs := refs0;
  }

  /** `obj.forEach(traverse)` for an array. */
  method TraverseItems(arr: Json, refs0: seq<string>) returns (refs: seq<string>)
    requires arr.JArr?
    ensures refs == refs0 + ItemRefs(arr.items)
    decreases arr, 0
  {
    var items := arr.items;
    refs := refs0;
    for i := 0 to |items|
      invariant refs == refs0 + ItemRefs(items[..i])
    {
      assert items[..i + 1][..i] == items[..i];
      AppendAssoc(refs0, ItemRefs(items[..i]), Refs(items[i]));
      refs := Traverse(items[i], refs);
    }
    assert items[..|items|] == items;
  }

  /** The loop over `record.references`, keeping the resource references. */
  method CollectOwn(members: Record, refs0: seq<string>) returns (refs: seq<string>)
    ensures refs == refs0 + OwnReferences(members)
  {
    refs := refs0;
    var field := Get(members, "references");
    if field.Some? && field.value.JArr? {
      var list := field.value.items;
      for k := 0 to |list|
        invariant refs == refs0 + KeptStrings(list[..k])
      {
        assert list[..k + 1][..k] == list[..k];
        var entry := list[k];
        if entry.JStr? && IsResourceReference(entry.str) {
          AppendAssoc(refs0, KeptStrings(list[..k]), [entry.str]);
          refs := refs + [entry.str];
        }
      }
      assert list[..|list|] == list;
    }
  }

  /** The loop over `Object.values(record)`. */
  method TraverseMembers(obj: Json, refs0: seq<string>) returns (refs: seq<string>)
    requires obj.JObj?
    ensures refs == refs0 + MemberRefs(obj, |obj.members|)
    decreases obj, 0
  {
    refs := refs0;
    for i := 0 to |obj.members|
      invariant refs == refs0 + MemberRefs(obj, i)
    {
      AppendAssoc(refs0, MemberRefs(obj, i), Refs(obj.members[i].1));
      refs := Traverse(obj.members[i].1, refs);
    }
  }

  // ----- What the walk collects, independently of the order of the walk -----

  /** `x` is a kept string entry of the object's own `references` array. */
  predicate OwnRef(record: Record, x: string) {
    match Get(record, "references")
    case Some(JArr(items)) => JStr(x) in items && IsResourceReference(x)
    case _ => false
  }

  /**
   `x` is a kept string entry of the `references` array of some object
   reachable from `j`, at any depth, through array elements and member values.
   */
  predicate RefEntry(j: Json, x: string)
    decreases j
  {
    match j
    case JArr(items) => exists i :: 0 <= i < |items| && RefEntry(items[i], x)
    case JObj(members) => OwnRef(members, x) || exists i :: 0 <= i < |members| && RefEntry(members[i].1, x)
    case _ => false
  }

  /** One `references` array keeps exactly its string entries that are resource references. */
  lemma {:induction false} KeptIff(items: seq<Json>, x: string)
    ensures x in KeptStrings(items) <==> JStr(x) in items && IsResourceReference(x)
  {
    if items != [] {
      var init, last := items[..|items| - 1], items[|items| - 1];
      KeptIff(init, x);
      assert items == init + [last];
    }
  }

  /**
   The walk collects a string exactly when it is a kept entry of a
   `references` array somewhere in the tree: nothing else is collected and
   no such entry is missed.
   */
  lemma {:induction false} RefsIff(j: Json, x: string)
    ensures x in Refs(j) <==> RefEntry(j, x)
    decreases j
  {
    if j.JArr? {
      ItemsIff(j.items, x);
    } else if j.JObj? {
      var field := Get(j.members, "references");
      if field.Some? && field.value.JArr? {
        KeptIff(field.value.items, x);
      }
      MembersIff(j, |j.members|, x);
      assert RefEntry(j, x) <==> OwnRef(j.members, x) || SomeMemberLeads(j.members, |j.members|, x);
    }
  }

  /** Whatever a tree leads to is a resource reference. */
  lemma {:induction false} RefEntryIsResource(j: Json, x: string)
    requires RefEntry(j, x)
    ensures IsResourceReference(x)
    decreases j
  {
    match j
    case JArr(items) =>
      var i :| 0 <= i < |items| && RefEntry(items[i], x);
      RefEntryIsResource(items[i], x);
    case JObj(members) =>
      if !OwnRef(members, x) {
        var i :| 0 <= i < |members| && RefEntry(members[i].1, x);
        RefEntryIsResource(members[i].1, x);
      }
  }

  /** No reference collected anywhere in the tree starts with `var.` or `local.`. */
  lemma OnlyResourceReferences(j: Json)
    ensures forall x :: x in Refs(j) ==> IsResourceReference(x)
  {
    forall x | x in Refs(j)
      ensures IsResourceReference(x)
    {
      RefsIff(j, x);
      RefEntryIsResource(j, x);
    }
  }

  lemma {:induction false} ItemsIff(items: seq<Json>, x: string)
    ensures x in ItemRefs(items) <==> SomeItemLeads(items, x)
    decreases items
  {
    if items != [] {
      var init, last := items[..|items| - 1], items[|items| - 1];
      assert ItemRefs(items) == ItemRefs(init) + Refs(last);
      ItemsIff(init, x);
      RefsIff(last, x);
      SomeItemSnoc(items, x);
      InEither(ItemRefs(items), ItemRefs(init), Refs(last), x, SomeItemLeads(items, x),
               SomeItemLeads(init, x), RefEntry(last, x));
    }
  }

  /** Some element of `items` leads to `x`. */
  predicate SomeItemLeads(items: seq<Json>, x: string) {
    exists i :: 0 <= i < |items| && RefEntry(items[i], x)
  }

  /** A string is in a concatenation exactly when it is in one of the two halves. */
  lemma InEither(whole: seq<string>, prev: seq<string>, cur: seq<string>, x: string, leads: bool, leadsPrev: bool, leadsCur: bool)
    requires whole == prev + cur
    requires x in prev <==> leadsPrev
    requires x in cur <==> leadsCur
    requires leads <==> leadsPrev || leadsCur
    ensures x in whole <==> leads
  {
  }

  /** Some element of a non-empty `items` leads to `x` exactly when one before the last does or the last does. */
  lemma SomeItemSnoc(items: seq<Json>, x: string)
    requires items != []
    ensures SomeItemLeads(items, x) <==> SomeItemLeads(items[..|items| - 1], x) || RefEntry(items[|items| - 1], x)
  {
    var init, n := items[..|items| - 1], |items| - 1;
    if SomeItemLeads(items, x) {
      var i :| 0 <= i < |items| && RefEntry(items[i], x);
      if i < n {
        assert init[i] == items[i];
        assert SomeItemLeads(init, x);
      } else {
        assert i == n && RefEntry(items[n], x);
      }
    }
    if SomeItemLeads(init, x) {
      var i :| 0 <= i < n && RefEntry(init[i], x);
      assert items[i] == init[i];
      assert SomeItemLeads(items, x);
    }
    if RefEntry(items[n], x) {
      assert SomeItemLeads(items, x);
    }
  }

  /** Some of the first `n` member values leads to `x`. */
  predicate SomeMemberLeads(members: Record, n: nat, x: string)
    requires n <= |members|
  {
    exists i :: 0 <= i < n && RefEntry(members[i].1, x)
  }

  lemma {:induction false} MembersIff(owner: Json, n: nat, x: string)
    requires owner.JObj? && n <= |owner.members|
    ensures x in MemberRefs(owner, n) <==> SomeMemberLeads(owner.members, n, x)
    decreases owner, n
  {
    if n > 0 {
      MembersIff(owner, n - 1, x);
      RefsIff(owner.members[n - 1].1, x);
      MembersStep(owner, n, x);
    } else {
      MembersNone(owner, x);
    }
  }

  /** No member value has been visited yet. */
  lemma MembersNone(owner: Json, x: string)
    requires owner.JObj?
    ensures x !in MemberRefs(owner, 0) && !SomeMemberLeads(owner.members, 0, x)
  {
  }

  /** One step of `MembersIff`: the iff for `n - 1` members and for the `n`-th value gives the iff for `n`. */
  lemma MembersStep(owner: Json, n: nat, x: string)
    requires owner.JObj? && 0 < n <= |owner.members|
    requires x in MemberRefs(owner, n - 1) <==> SomeMemberLeads(owner.members, n - 1, x)
    requires x in Refs(owner.members[n - 1].1) <==> RefEntry(owner.members[n - 1].1, x)
    ensures x in MemberRefs(owner, n) <==> SomeMemberLeads(owner.members, n, x)
  {
    var value := owner.members[n - 1].1;
    var prev, cur := MemberRefs(owner, n - 1), Refs(value);
    var leads, leadsPrev := SomeMemberLeads(owner.members, n, x), SomeMemberLeads(owner.members, n - 1, x);
    assert MemberRefs(owner, n) == prev + cur;
    SomeMemberSnoc(owner.members, n, x);
    InEither(MemberRefs(owner, n), prev, cur, x, leads, leadsPrev, RefEntry(value, x));
  }

  /** Some of the first `n` member values leads to `x` exactly when one of the first `n - 1` does or the `n`-th does. */
  lemma SomeMemberSnoc(members: Record, n: nat, x: string)
    requires 0 < n <= |members|
    ensures SomeMemberLeads(members, n, x)
        <==> SomeMemberLeads(members, n - 1, x) || RefEntry(members[n - 1].1, x)
  {
  }

  /** An array of scalars contributes no references of its own walk. */
  lemma {:induction false} ScalarItems(items: seq<Json>)
    requires forall i :: 0 <= i < |items| ==> !items[i].JArr? && !items[i].JObj?
    ensures ItemRefs(items) == []
  {
    if items != [] {
      ScalarItems(items[..|items| - 1]);
    }
  }

  /** The worked example: variable and local references are dropped. */
  lemma DropsVariablesAndLocals()
    ensures Refs(JObj([("references", JArr([JStr("var.x"), JStr("aws_instance.a"), JStr("local.y")]))]))
         == ["aws_instance.a"]
  {
    var list := [JStr("var.x"), JStr("aws_instance.a"), JStr("local.y")];
    var obj := JObj([("references", JArr(list))]);
    assert !IsResourceReference("var.x") by { assert "var." <= "var.x"; }
    assert !IsResourceReference("local.y") by { assert "local." <= "local.y"; }
    assert IsResourceReference("aws_instance.a") by {
      assert "aws_instance.a"[0] != "var."[0] && "aws_instance.a"[0] != "local."[0];
    }
    assert list[..1][..0] == [];
    assert KeptStrings(list[..1]) == [];
    assert list[..2][..1] == list[..1];
    assert KeptStrings(list[..2]) == ["aws_instance.a"];
    assert list[..2] == list[..|list| - 1];
    assert KeptStrings(list) == ["aws_instance.a"];
    ScalarItems(list);
    assert MemberRefs(obj, 1) == [];
  }

  /** References found under two different expression fields are both kept. */
  lemma KeepsDuplicates()
    ensures Refs(JObj([
              ("a", JObj([("references", JArr([JStr("aws_vpc.main")]))])),
              ("b", JObj([("references", JArr([JStr("aws_vpc.main")]))]))]))
         == ["aws_vpc.main", "aws_vpc.main"]
  {
    var inner := JObj([("references", JArr([JStr("aws_vpc.main")]))]);
    var obj := JObj([("a", inner), ("b", inner)]);
    VpcReference(inner);
    assert Get(obj.members, "references") == None by {
      assert "a" != "references" && "b" != "references";
      assert Get(obj.members[1..], "references") == None;
    }
    assert MemberRefs(obj, 1) == ["aws_vpc.main"];
  }

  lemma VpcReference(inner: Json)
    requires inner == JObj([("references", JArr([JStr("aws_vpc.main")]))])
    ensures Refs(inner) == ["aws_vpc.main"]
  {
    var list := [JStr("aws_vpc.main")];
    assert IsResourceReference("aws_vpc.main") by {
      assert "aws_vpc.main"[0] != "var."[0] && "aws_vpc.main"[0] != "local."[0];
    }
    assert list[..0] == [];
    assert KeptStrings(list) == ["aws_vpc.main"];
    ScalarItems(list);
    assert MemberRefs(inner, 1) == [];
  }

}
