/** The generated `oneOf` schema for provider lists: one branch per subset of the families, each
    admitting exactly the families of its subset in their order. */
module ProviderBranches {

  /** An element of a JSON array: a string, or something no string constant equals. */
  datatype Element = Name(text: string) | Other

  /** The array keywords of a branch; `items: false` forbids elements after the prefix. */
  datatype Branch = Branch(minItems: nat, maxItems: nat, prefixItems: seq<string>, closed: bool)

  /** Validation of an array (sections 6.4.1, 6.4.2 of JSON Schema Validation 2020-12 for the counts,
      section 10.3.1 of JSON Schema Core 2020-12 for prefixItems and items). */
  predicate Validates(branch: Branch, instance: seq<Element>) {
    && branch.minItems <= |instance| <= branch.maxItems
    && (forall i :: 0 <= i < |instance| && i < |branch.prefixItems| ==> instance[i] == Name(branch.prefixItems[i]))
    && (branch.closed ==> |instance| <= |branch.prefixItems|)
  }

  /** How many branches accept: section 10.2.1.3 demands exactly one. */
  function Accepting(branches: seq<Branch>, instance: seq<Element>): nat {
    if branches == [] then 0
    else (if Validates(branches[0], instance) then 1 else 0) + Accepting(branches[1..], instance)
  }

  predicate OneOf(branches: seq<Branch>, instance: seq<Element>) { Accepting(branches, instance) == 1 }

  // ---------------------------------------------------------------- the generator

  function Pow2(n: nat): (p: nat)
    ensures p > 0
  {
    if n == 0 then 1 else 2 * Pow2(n - 1)
  }

  /** `mask & (1 << index) != 0`: bit by bit, from the lowest. */
  predicate HasBit(mask: nat, index: nat) {
    if index == 0 then mask % 2 == 1 else HasBit(mask / 2, index - 1)
  }

  /** The families whose bits are set, lowest bit first. */
  function Selected(families: seq<string>, mask: nat): seq<string> {
    if families == [] then []
    else (if mask % 2 == 1 then [families[0]] else []) + Selected(families[1..], mask / 2)
  }

  function BranchFor(selected: seq<string>): Branch {
    if selected == [] then Branch(0, 0, [], false) else Branch(|selected|, |selected|, selected, true)
  }

  function BranchesOf(families: seq<string>): (branches: seq<Branch>)
    ensures |branches| == Pow2(|families|)
  {
    seq(Pow2(|families|), mask requires 0 <= mask => BranchFor(Selected(families, mask)))
  }

  lemma {:induction false} SelectedUpTo(families: seq<string>, mask: nat, n: nat)
    requires n < |families|
    ensures Selected(families[..n + 1], mask) == Selected(families[..n], mask) + if HasBit(mask, n) then [families[n]] else []
    decreases n
  {
    assert families[..n + 1][1..] == families[1..][..n];
    if n == 0 {
      assert families[..1][1..] == [] && families[..0] == [];
    } else {
      assert families[..n][1..] == families[1..][..n - 1];
      SelectedUpTo(families[1..], mask / 2, n - 1);
      assert families[1..][n - 1] == families[n];
    }
  }

  /** extendProviderIDBranchesForFamilies, once the schema node has been found. */
  method ExtendBranches(families: seq<string>) returns (branches: seq<Branch>)
    ensures branches == BranchesOf(families)
  {
    branches := [];
    for mask := 0 to Pow2(|families|)
      invariant branches == BranchesOf(families)[..mask]
    {
      var selected: seq<string> := [];
      for index := 0 to |families|
        invariant selected == Selected(families[..index], mask)
      {
        SelectedUpTo(families, mask, index);
        if HasBit(mask, index) { selected := selected + [families[index]]; }
      }
      assert families[..|families|] == families;
      if |selected| == 0 {
        branches := branches + [Branch(0, 0, [], false)];
      } else {
        branches := branches + [Branch(|selected|, |selected|, selected, true)];
      }
    }
  }

  // ---------------------------------------------------------------- which branch accepts

  function Named(names: seq<string>): (elements: seq<Element>)
    ensures |elements| == |names|
  {
    seq(|names|, i requires 0 <= i < |names| => Name(names[i]))
  }

  /** A branch accepts its own selection and nothing else. */
  lemma BranchAcceptsSelection(selected: seq<string>, instance: seq<Element>)
    ensures Validates(BranchFor(selected), instance) <==> instance == Named(selected)
  {
  }

  lemma NamedBinds(a: seq<string>, b: seq<string>)
    requires Named(a) == Named(b)
    ensures a == b
  {
    assert |a| == |Named(a)| == |b|;
    forall i | 0 <= i < |a| ensures a[i] == b[i] { assert Named(a)[i] == Named(b)[i]; }
  }

  predicate Subsequence(names: seq<string>, families: seq<string>) {
    if names == [] then true
    else if families == [] then false
    else (names[0] == families[0] && Subsequence(names[1..], families[1..])) || Subsequence(names, families[1..])
  }

  ghost predicate Distinct(families: seq<string>) {
    forall i, j :: 0 <= i < j < |families| ==> families[i] != families[j]
  }

  lemma {:induction false} SelectedMembers(families: seq<string>, mask: nat)
    ensures forall name :: name in Selected(families, mask) ==> name in families
  {
    if families != [] { SelectedMembers(families[1..], mask / 2); }
  }

  /** Different masks select different families. */
  lemma {:induction false} SelectedBinds(families: seq<string>, a: nat, b: nat)
    requires Distinct(families) && a < Pow2(|families|) && b < Pow2(|families|)
    requires Selected(families, a) == Selected(families, b)
    ensures a == b
  {
    if families != [] {
      var x, y := Selected(families[1..], a / 2), Selected(families[1..], b / 2);
      HeadSelected(families, a);
      HeadSelected(families, b);
      if a % 2 == 1 { assert ([families[0]] + x)[1..] == x && ([families[0]] + y)[1..] == y; }
      else { assert [] + x == x && [] + y == y; }
      SelectedBinds(families[1..], a / 2, b / 2);
    }
  }

  lemma HeadSelected(families: seq<string>, mask: nat)
    requires Distinct(families) && families != []
    ensures families[0] in Selected(families, mask) <==> mask % 2 == 1
  {
    HeadIsNoLater(families, mask / 2);
  }

  lemma HeadIsNoLater(families: seq<string>, mask: nat)
    requires Distinct(families) && families != []
    ensures families[0] !in Selected(families[1..], mask)
  {
    SelectedMembers(families[1..], mask);
    forall i | 0 <= i < |families[1..]| ensures families[1..][i] != families[0] { assert families[i + 1] != families[0]; }
  }

  lemma {:induction false} SelectionIsSubsequence(families: seq<string>, mask: nat)
    ensures Subsequence(Selected(families, mask), families)
  {
    if families != [] {
      SelectionIsSubsequence(families[1..], mask / 2);
      if mask % 2 == 1 { assert Selected(families, mask)[1..] == Selected(families[1..], mask / 2); }
      else { assert Selected(families, mask) == Selected(families[1..], mask / 2); }
    }
  }

  lemma {:induction false} SubsequenceIsSelected(names: seq<string>, families: seq<string>) returns (mask: nat)
    requires Subsequence(names, families)
    ensures mask < Pow2(|families|) && Selected(families, mask) == names
  {
    if families == [] {
      mask := 0;
    } else if names != [] && names[0] == families[0] && Subsequence(names[1..], families[1..]) {
      var rest := SubsequenceIsSelected(names[1..], families[1..]);
      mask := 2 * rest + 1;
      assert names == [names[0]] + names[1..];
    } else {
      var rest := SubsequenceIsSelected(names, families[1..]);
      mask := 2 * rest;
    }
  }

  lemma {:induction false} CountsNone(branches: seq<Branch>, instance: seq<Element>)
    requires forall i :: 0 <= i < |branches| ==> !Validates(branches[i], instance)
    ensures Accepting(branches, instance) == 0
  {
    if branches != [] { CountsNone(branches[1..], instance); }
  }

  lemma {:induction false} CountsOne(branches: seq<Branch>, instance: seq<Element>, k: nat)
    requires k < |branches| && Validates(branches[k], instance)
    requires forall i :: 0 <= i < |branches| && i != k ==> !Validates(branches[i], instance)
    ensures Accepting(branches, instance) == 1
  {
    if k == 0 { CountsNone(branches[1..], instance); } else { CountsOne(branches[1..], instance, k - 1); }
  }

  ghost predicate NamesSubsequence(instance: seq<Element>, families: seq<string>) {
    exists names :: instance == Named(names) && Subsequence(names, families)
  }

  /** For distinct families, an array is accepted by exactly one branch when it lists families in
      their order, and by none otherwise; so no array is ever accepted by two. */
  lemma OneBranchPerSubsequence(families: seq<string>, instance: seq<Element>)
    requires Distinct(families)
    ensures OneOf(BranchesOf(families), instance) <==> NamesSubsequence(instance, families)
    ensures !NamesSubsequence(instance, families) ==> Accepting(BranchesOf(families), instance) == 0
  {
    var branches := BranchesOf(families);
    if NamesSubsequence(instance, families) {
      var names :| instance == Named(names) && Subsequence(names, families);
      var mask := SubsequenceIsSelected(names, families);
      BranchAcceptsSelection(names, instance);
      forall i | 0 <= i < |branches| && i != mask ensures !Validates(branches[i], instance) {
        BranchAcceptsSelection(Selected(families, i), instance);
        if instance == Named(Selected(families, i)) {
          NamedBinds(names, Selected(families, i));
          SelectedBinds(families, mask, i);
        }
      }
      CountsOne(branches, instance, mask);
    } else {
      forall i | 0 <= i < |branches| ensures !Validates(branches[i], instance) {
        BranchAcceptsSelection(Selected(families, i), instance);
        SelectionIsSubsequence(families, i);
      }
      CountsNone(branches, instance);
    }
  }
}
