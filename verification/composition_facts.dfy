// What a canonical set selects and when composing it meets a mask conflict.
// The assignments of a set are listed kind by kind; these lemmas find the item behind a position and the position of
// an item. The checks that can fail have disjoint error codes. A field assigned by two kinds overlaps itself, and two
// selected assignments overlap only if they are of one field, since declared fields share no bits: so the mask
// conflict is exactly a shared field. What composition means is in composition_meaning.dfy, what it writes in
// composition_writes.dfy.
module CompositionFacts {
  import opened Wrappers
  import opened Bits
  import opened JsonValues
  import opened Descriptors
  import opened Composition
  import Composer

  // ----- the assignments a canonical set selects --------------------------------------------------------

  function AssignmentOf(d: Descriptor, a: Assign, originals: Words, params: map<string, Json>): Assignment {
    var value := OperandValue(d, a.value, originals, params);
    Assignment(FieldNamed(d.fields, a.field), if value < 0 then 0 else value)
  }

  function Selected(d: Descriptor, assigns: seq<Assign>, originals: Words, params: map<string, Json>): seq<Assignment> {
    if assigns == [] then []
    else [AssignmentOf(d, assigns[0], originals, params)] + Selected(d, assigns[1..], originals, params)
  }

  function SelectedBy(d: Descriptor, canon: seq<Item>, originals: Words): seq<Assignment> {
    if canon == [] then []
    else Selected(d, KindNamed(d.interventions, canon[0].kind).assign, originals, canon[0].parameters)
         + SelectedBy(d, canon[1..], originals)
  }

  lemma {:induction false} SelectedAt(d: Descriptor, assigns: seq<Assign>, originals: Words, params: map<string, Json>)
    ensures |Selected(d, assigns, originals, params)| == |assigns|
    ensures forall j :: 0 <= j < |assigns| ==>
              Selected(d, assigns, originals, params)[j] == AssignmentOf(d, assigns[j], originals, params)
  {
    if assigns != [] {
      SelectedAt(d, assigns[1..], originals, params);
    }
  }

  // The item whose assignment stands at position p.
  lemma {:induction false} SelectedByAt(d: Descriptor, canon: seq<Item>, originals: Words, p: nat) returns (x: Item, a: Assign)
    requires p < |SelectedBy(d, canon, originals)|
    ensures x in canon && a in KindNamed(d.interventions, x.kind).assign
    ensures SelectedBy(d, canon, originals)[p] == AssignmentOf(d, a, originals, x.parameters)
  {
    var first := KindNamed(d.interventions, canon[0].kind).assign;
    SelectedAt(d, first, originals, canon[0].parameters);
    if p < |first| {
      x, a := canon[0], first[p];
    } else {
      x, a := SelectedByAt(d, canon[1..], originals, p - |first|);
    }
  }

  // The position of an item's assignment.
  lemma {:induction false} PositionOf(d: Descriptor, canon: seq<Item>, originals: Words, x: Item, a: Assign) returns (p: nat)
    requires x in canon && a in KindNamed(d.interventions, x.kind).assign
    ensures p < |SelectedBy(d, canon, originals)|
    ensures SelectedBy(d, canon, originals)[p] == AssignmentOf(d, a, originals, x.parameters)
  {
    var first := KindNamed(d.interventions, canon[0].kind).assign;
    SelectedAt(d, first, originals, canon[0].parameters);
    if x == canon[0] {
      p :| 0 <= p < |first| && first[p] == a;
    } else {
      assert x in canon[1..];
      var q := PositionOf(d, canon[1..], originals, x, a);
      p := |first| + q;
    }
  }

  lemma {:induction false} AssignFromSelects(d: Descriptor, assigns: seq<Assign>, j: nat, originals: Words, params: map<string, Json>,
                                            applied: seq<Assignment>)
    requires j <= |assigns| && NoOverlap(applied)
    requires AllFit(applied)
    requires forall i :: 0 <= i < |assigns| ==> Composer.Ready(d, assigns[i], originals)
    ensures
      var r, all := AssignFrom(d, assigns, j, originals, params, applied), applied + Selected(d, assigns[j..], originals, params);
      && (r.Ok? ==> r.value == all && NoOverlap(all) && AllFit(all))
      && (r.Err? ==> r.error == ValueWidth || r.error == MaskConflict)
      && (r == Err(MaskConflict) ==> !NoOverlap(all))
    decreases |assigns| - j
  {
    if j < |assigns| {
      var a := AssignmentOf(d, assigns[j], originals, params);
      var value := OperandValue(d, assigns[j].value, originals, params);
      var rest := Selected(d, assigns[j + 1..], originals, params);
      var all := applied + Selected(d, assigns[j..], originals, params);
      assert assigns[j..][1..] == assigns[j + 1..];
      assert all == applied + [a] + rest;
      assert all[|applied|] == a;
      if 0 <= value < Pow2(a.field.width) {
        if OverlapsSome(applied, a.field) {
          var k :| 0 <= k < |applied| && Overlap(applied[k].field, a.field);
          assert all[k] == applied[k];
          assert Overlap(all[k].field, all[|applied|].field);
        } else {
          assert Composer.Ready(d, assigns[j], originals);
          AssignFromSelects(d, assigns, j + 1, originals, params, applied + [a]);
        }
      }
    } else {
      assert assigns[j..] == [];
      assert applied + [] == applied;
    }
  }

  lemma NoOverlapPrefix(a: seq<Assignment>, b: seq<Assignment>)
    requires !NoOverlap(a)
    ensures !NoOverlap(a + b)
  {
    var k, l :| 0 <= k < l < |a| && Overlap(a[k].field, a[l].field);
    assert Overlap((a + b)[k].field, (a + b)[l].field);
  }

  ghost predicate AllReady(d: Descriptor, canon: seq<Item>, originals: Words) {
    forall i :: 0 <= i < |canon| ==> Composer.KindReady(d, canon[i].kind, originals)
  }

  lemma {:induction false} CollectSelects(d: Descriptor, canon: seq<Item>, i: nat, originals: Words, applied: seq<Assignment>)
    requires i <= |canon| && NoOverlap(applied) && AllFit(applied) && AllReady(d, canon, originals)
    ensures
      var r, all := CollectFrom(d, canon, i, originals, applied), applied + SelectedBy(d, canon[i..], originals);
      && (r.Ok? ==> r.value == all && NoOverlap(all) && AllFit(all))
      && (r == Err(MaskConflict) ==> !NoOverlap(all))
    decreases |canon| - i
  {
    if i < |canon| {
      var k := KindNamed(d.interventions, canon[i].kind);
      var all := applied + SelectedBy(d, canon[i..], originals);
      var mine := Selected(d, k.assign, originals, canon[i].parameters);
      var rest := SelectedBy(d, canon[i + 1..], originals);
      assert canon[i..][1..] == canon[i + 1..];
      assert all == applied + mine + rest;
      assert Composer.KindReady(d, canon[i].kind, originals);
      CheckAllCodes(d, k.demands, originals, canon[i].parameters, OriginalPrecondition);
      AssignFromSelects(d, k.assign, 0, originals, canon[i].parameters, applied);
      assert k.assign[0..] == k.assign;
      var step := AssignFrom(d, k.assign, 0, originals, canon[i].parameters, applied);
      if step.Ok? {
        CollectSelects(d, canon, i + 1, originals, step.value);
      } else if step == Err(MaskConflict) {
        NoOverlapPrefix(applied + mine, rest);
      }
    } else {
      assert canon[i..] == [];
      assert applied + [] == applied;
    }
  }

  // ----- error codes of the parts -----------------------------------------------------------------------

  lemma {:induction false} ProductCodes(d: Descriptor, factors: seq<Factor>, words: Words, product: int)
    ensures Product(d, factors, words, product).Err? ==> Product(d, factors, words, product) == Err(NegativeFactor)
  {
    if factors != [] && FactorValue(d, factors[0], words) >= 0 {
      ProductCodes(d, factors[1..], words, product * FactorValue(d, factors[0], words));
    }
  }

  lemma {:induction false} CheckAllCodes(d: Descriptor, ps: seq<Predicate>, words: Words, params: map<string, Json>, failure: Code)
    ensures
      var r := CheckAll(d, ps, words, params, failure);
      r.Err? ==> r.error == NegativeFactor || r.error == failure
  {
    if ps != [] {
      match ps[0] {
        case Compare(_, _, _) =>
        case ProductBound(factors, _, _) => ProductCodes(d, factors, words, 1);
      }
      CheckAllCodes(d, ps[1..], words, params, failure);
    }
  }

  lemma {:induction false} CheckAllMeansEach(d: Descriptor, ps: seq<Predicate>, words: Words, params: map<string, Json>, failure: Code)
    ensures CheckAll(d, ps, words, params, failure).Ok? <==>
            forall i :: 0 <= i < |ps| ==> Holds(d, ps[i], words, params) == Ok(true)
  {
    if ps != [] {
      CheckAllMeansEach(d, ps[1..], words, params, failure);
      if forall i :: 0 <= i < |ps[1..]| ==> Holds(d, ps[1..][i], words, params) == Ok(true) {
        forall i | 1 <= i < |ps|
          ensures Holds(d, ps[i], words, params) == Ok(true)
        {
          assert ps[1..][i - 1] == ps[i];
        }
      }
    }
  }

  // ----- mask conflicts ---------------------------------------------------------------------------------

  // The kind meets its demands on the originals and assigns values that fit.
  ghost predicate AdmissibleItem(d: Descriptor, x: Item, originals: Words) {
    var k := KindNamed(d.interventions, x.kind);
    && CheckAll(d, k.demands, originals, x.parameters, OriginalPrecondition).Ok?
    && forall j :: 0 <= j < |k.assign| ==>
         0 <= OperandValue(d, k.assign[j].value, originals, x.parameters) < Pow2(FieldNamed(d.fields, k.assign[j].field).width)
  }

  ghost predicate Admissible(d: Descriptor, canon: seq<Item>, originals: Words) {
    forall i :: 0 <= i < |canon| ==> AdmissibleItem(d, canon[i], originals)
  }

  predicate Assigns(d: Descriptor, kind: string, field: string) {
    var k := KindNamed(d.interventions, kind);
    exists j :: 0 <= j < |k.assign| && k.assign[j].field == field
  }

  // Two selected kinds assign one field.
  ghost predicate SharesField(d: Descriptor, canon: seq<Item>) {
    exists x, y, field :: x in canon && y in canon && x.kind != y.kind && Assigns(d, x.kind, field) && Assigns(d, y.kind, field)
  }

  lemma {:induction false} AdmissibleAssign(d: Descriptor, assigns: seq<Assign>, j: nat, originals: Words, params: map<string, Json>,
                                           applied: seq<Assignment>)
    requires j <= |assigns|
    requires forall i :: 0 <= i < |assigns| ==>
               0 <= OperandValue(d, assigns[i].value, originals, params) < Pow2(FieldNamed(d.fields, assigns[i].field).width)
    ensures
      var r := AssignFrom(d, assigns, j, originals, params, applied);
      r.Err? ==> r.error == MaskConflict
    decreases |assigns| - j
  {
    if j < |assigns| {
      AdmissibleAssign(d, assigns, j + 1, originals, params, applied + [AssignmentOf(d, assigns[j], originals, params)]);
    }
  }

  lemma {:induction false} AdmissibleCollect(d: Descriptor, canon: seq<Item>, i: nat, originals: Words, applied: seq<Assignment>)
    requires i <= |canon| && Admissible(d, canon, originals)
    ensures
      var r := CollectFrom(d, canon, i, originals, applied);
      r.Err? ==> r.error == MaskConflict
    decreases |canon| - i
  {
    if i < |canon| {
      assert AdmissibleItem(d, canon[i], originals);
      var k := KindNamed(d.interventions, canon[i].kind);
      AdmissibleAssign(d, k.assign, 0, originals, canon[i].parameters, applied);
      var step := AssignFrom(d, k.assign, 0, originals, canon[i].parameters, applied);
      if step.Ok? {
        AdmissibleCollect(d, canon, i + 1, originals, step.value);
      }
    }
  }

  ghost predicate DistinctKinds(canon: seq<Item>) {
    forall i, j :: 0 <= i < j < |canon| ==> canon[i].kind != canon[j].kind
  }

  ghost predicate DeclaredKinds(d: Descriptor, canon: seq<Item>) {
    forall i :: 0 <= i < |canon| ==> HasKind(d.interventions, canon[i].kind)
  }

  lemma KindIsValid(d: Descriptor, name: string)
    requires ValidKinds(d) && HasKind(d.interventions, name)
    ensures KindOk(d, KindNamed(d.interventions, name))
  {
    KindFound(d.interventions, name);
  }

  lemma OneKindNoOverlap(d: Descriptor, name: string, originals: Words, params: map<string, Json>)
    requires ValidFields(d) && ValidKinds(d) && HasKind(d.interventions, name)
    ensures NoOverlap(Selected(d, KindNamed(d.interventions, name).assign, originals, params))
  {
    var assigns := KindNamed(d.interventions, name).assign;
    KindIsValid(d, name);
    SelectedAt(d, assigns, originals, params);
    forall k, l | 0 <= k < l < |assigns|
      ensures !Overlap(FieldNamed(d.fields, assigns[k].field), FieldNamed(d.fields, assigns[l].field))
    {
      assert AssignOk(d, KindNamed(d.interventions, name).parameters, assigns[k]);
      assert AssignOk(d, KindNamed(d.interventions, name).parameters, assigns[l]);
      FieldsShareNoBit(d, assigns[k].field, assigns[l].field);
    }
  }

  lemma AssignedFieldDeclared(d: Descriptor, x: Item, a: Assign)
    requires ValidKinds(d) && HasKind(d.interventions, x.kind) && a in KindNamed(d.interventions, x.kind).assign
    ensures HasField(d.fields, a.field) && Assigns(d, x.kind, a.field)
  {
    var k := KindNamed(d.interventions, x.kind);
    KindIsValid(d, x.kind);
    var j :| 0 <= j < |k.assign| && k.assign[j] == a;
    assert AssignOk(d, k.parameters, k.assign[j]);
  }

  lemma OverlapAcrossItems(d: Descriptor, x: Item, a: Assign, y: Item, b: Assign, originals: Words)
    requires ValidFields(d) && ValidKinds(d) && HasKind(d.interventions, x.kind) && HasKind(d.interventions, y.kind)
    requires a in KindNamed(d.interventions, x.kind).assign && b in KindNamed(d.interventions, y.kind).assign
    requires Overlap(AssignmentOf(d, a, originals, x.parameters).field, AssignmentOf(d, b, originals, y.parameters).field)
    ensures a.field == b.field && Assigns(d, x.kind, a.field) && Assigns(d, y.kind, a.field)
  {
    AssignedFieldDeclared(d, x, a);
    AssignedFieldDeclared(d, y, b);
    FieldsShareNoBit(d, a.field, b.field);
  }

  lemma TailDistinct(d: Descriptor, canon: seq<Item>)
    requires canon != [] && DistinctKinds(canon) && DeclaredKinds(d, canon)
    ensures DistinctKinds(canon[1..]) && DeclaredKinds(d, canon[1..])
    ensures forall y :: y in canon[1..] ==> y.kind != canon[0].kind && HasKind(d.interventions, y.kind)
  {
  }

  // An overlap among the selected assignments is two kinds assigning one field.
  lemma {:induction false} OverlapIsSharedField(d: Descriptor, canon: seq<Item>, originals: Words)
    requires ValidFields(d) && ValidKinds(d) && DistinctKinds(canon) && DeclaredKinds(d, canon)
    requires !NoOverlap(SelectedBy(d, canon, originals))
    ensures SharesField(d, canon)
  {
    if canon != [] {
      TailDistinct(d, canon);
      var assigns := KindNamed(d.interventions, canon[0].kind).assign;
      var mine := Selected(d, assigns, originals, canon[0].parameters);
      var rest := SelectedBy(d, canon[1..], originals);
      if !NoOverlap(rest) {
        OverlapIsSharedField(d, canon[1..], originals);
        var x, y, field :| x in canon[1..] && y in canon[1..] && x.kind != y.kind && Assigns(d, x.kind, field) && Assigns(d, y.kind, field);
        assert x in canon && y in canon;
      } else {
        OneKindNoOverlap(d, canon[0].kind, originals, canon[0].parameters);
        var k, l := CrossOverlap(mine, rest);
        SelectedAt(d, assigns, originals, canon[0].parameters);
        var y, b := SelectedByAt(d, canon[1..], originals, l);
        OverlapAcrossItems(d, canon[0], assigns[k], y, b, originals);
        assert canon[0] in canon && y in canon;
      }
    }
  }

  lemma ConcatNoOverlap(a: seq<Assignment>, b: seq<Assignment>)
    requires NoOverlap(a) && NoOverlap(b)
    requires forall i, j :: 0 <= i < |a| && 0 <= j < |b| ==> !Overlap(a[i].field, b[j].field)
    ensures NoOverlap(a + b)
  {
  }

  lemma CrossOverlap(a: seq<Assignment>, b: seq<Assignment>) returns (k: nat, l: nat)
    requires NoOverlap(a) && NoOverlap(b) && !NoOverlap(a + b)
    ensures k < |a| && l < |b| && Overlap(a[k].field, b[l].field)
  {
    if forall i, j :: 0 <= i < |a| && 0 <= j < |b| ==> !Overlap(a[i].field, b[j].field) {
      ConcatNoOverlap(a, b);
    }
    k, l :| 0 <= k < |a| && 0 <= l < |b| && Overlap(a[k].field, b[l].field);
  }

  lemma OverlapsInConcat(a: seq<Assignment>, b: seq<Assignment>, k: nat, l: nat)
    requires k < |a| && l < |b| && Overlap(a[k].field, b[l].field)
    ensures !NoOverlap(a + b)
  {
    assert Overlap((a + b)[k].field, (a + b)[|a| + l].field);
  }

  lemma NoOverlapSuffix(a: seq<Assignment>, b: seq<Assignment>)
    requires !NoOverlap(b)
    ensures !NoOverlap(a + b)
  {
    var k, l :| 0 <= k < l < |b| && Overlap(b[k].field, b[l].field);
    assert Overlap((a + b)[|a| + k].field, (a + b)[|a| + l].field);
  }

  lemma FirstSharesField(d: Descriptor, canon: seq<Item>, originals: Words, y: Item, field: string)
    requires ValidFields(d) && ValidKinds(d) && DeclaredKinds(d, canon) && canon != [] && y in canon[1..]
    requires Assigns(d, canon[0].kind, field) && Assigns(d, y.kind, field)
    ensures !NoOverlap(SelectedBy(d, canon, originals))
  {
    var x := canon[0];
    var kx, ky := KindNamed(d.interventions, x.kind), KindNamed(d.interventions, y.kind);
    var i :| 0 <= i < |kx.assign| && kx.assign[i].field == field;
    var j :| 0 <= j < |ky.assign| && ky.assign[j].field == field;
    SelectedAt(d, kx.assign, originals, x.parameters);
    var q := PositionOf(d, canon[1..], originals, y, ky.assign[j]);
    AssignedFieldDeclared(d, x, kx.assign[i]);
    FieldsShareNoBit(d, field, field);
    OverlapsInConcat(Selected(d, kx.assign, originals, x.parameters), SelectedBy(d, canon[1..], originals), i, q);
  }

  // Positions of different items' assignments differ, so a shared field overlaps itself.
  lemma {:induction false} SharedFieldOverlaps(d: Descriptor, canon: seq<Item>, originals: Words, x: Item, y: Item, field: string)
    requires ValidFields(d) && ValidKinds(d) && DistinctKinds(canon) && DeclaredKinds(d, canon)
    requires x in canon && y in canon && x.kind != y.kind && Assigns(d, x.kind, field) && Assigns(d, y.kind, field)
    ensures !NoOverlap(SelectedBy(d, canon, originals))
  {
    if x == canon[0] {
      FirstSharesField(d, canon, originals, y, field);
    } else if y == canon[0] {
      FirstSharesField(d, canon, originals, x, field);
    } else {
      TailDistinct(d, canon);
      SharedFieldOverlaps(d, canon[1..], originals, x, y, field);
      NoOverlapSuffix(Selected(d, KindNamed(d.interventions, canon[0].kind).assign, originals, canon[0].parameters),
                      SelectedBy(d, canon[1..], originals));
    }
  }

  // Once demands and widths hold, a mask conflict is exactly two selected kinds assigning one field.
  lemma MaskConflictExactly(d: Descriptor, canon: seq<Item>, originals: Words)
    requires Valid(d) && Supplied(d, originals) && DistinctKinds(canon) && DeclaredKinds(d, canon)
    requires Admissible(d, canon, originals)
    ensures CollectFrom(d, canon, 0, originals, []) == Err(MaskConflict) <==> SharesField(d, canon)
    ensures CollectFrom(d, canon, 0, originals, []) ==
            if SharesField(d, canon) then Err(MaskConflict) else Ok(SelectedBy(d, canon, originals))
  {
    CanonReady(d, canon, originals);
    assert canon[0..] == canon;
    assert [] + SelectedBy(d, canon, originals) == SelectedBy(d, canon, originals);
    CollectSelects(d, canon, 0, originals, []);
    AdmissibleCollect(d, canon, 0, originals, []);
    if SharesField(d, canon) {
      var x, y, field :| x in canon && y in canon && x.kind != y.kind && Assigns(d, x.kind, field) && Assigns(d, y.kind, field);
      SharedFieldOverlaps(d, canon, originals, x, y, field);
    } else if !NoOverlap(SelectedBy(d, canon, originals)) {
      OverlapIsSharedField(d, canon, originals);
    }
  }

  lemma CanonReady(d: Descriptor, canon: seq<Item>, originals: Words)
    requires Valid(d) && Supplied(d, originals) && DeclaredKinds(d, canon)
    ensures AllReady(d, canon, originals)
  {
    forall i | 0 <= i < |canon|
      ensures Composer.KindReady(d, canon[i].kind, originals)
    {
      Composer.KindIsReady(d, canon[i].kind, originals);
    }
  }
}
