/** The draft list of interest tags edited in the profile dialog: adding a
    typed tag and removing a shown one (src/components/edit-interests-dialog.tsx). */
module Interests {
  import opened Text

  /** Two tags that `toLowerCase` maps to the same string. */
  predicate SameIgnoringCase(a: string, b: string) {
    Lower(a) == Lower(b)
  }

  /** Some entry of `xs` equals `v` once both are lower-cased. */
  predicate ContainsIgnoringCase(xs: seq<string>, v: string) {
    exists i :: 0 <= i < |xs| && SameIgnoringCase(xs[i], v)
  }

  /** The invariant the add handler protects: no two entries differ only in case. */
  predicate NoCaseDuplicates(xs: seq<string>) {
    forall i, j :: 0 <= i < j < |xs| ==> !SameIgnoringCase(xs[i], xs[j])
  }

  /** The text field and the draft list, the two pieces of state the add handler writes. */
  datatype Draft = Draft(interests: seq<string>, input: string)

  /** Every entry lower-cased, in order. */
  function LowerAll(xs: seq<string>): (r: seq<string>)
    ensures |r| == |xs|
    ensures forall i :: 0 <= i < |xs| ==> r[i] == Lower(xs[i])
  {
    seq(|xs|, i requires 0 <= i < |xs| => Lower(xs[i]))
  }

  /** The duplicate test as written: the lower-cased candidate is `includes`d in
      the lower-cased list. It agrees with the case-insensitive membership above. */
  function IsKnown(xs: seq<string>, t: string): (b: bool)
    ensures b <==> ContainsIgnoringCase(xs, t)
  {
    Lower(t) in LowerAll(xs)
  }

  /** The add handler: a blank input or one already present up to case leaves
      both the list and the text field alone; otherwise the trimmed input is
      appended and the text field cleared. */
  function AddInterest(xs: seq<string>, input: string): (r: Draft)
    ensures AllSpace(input) ==> r == Draft(xs, input)
    ensures ContainsIgnoringCase(xs, Trim(input)) ==> r == Draft(xs, input)
    ensures !AllSpace(input) && !ContainsIgnoringCase(xs, Trim(input)) ==>
      r == Draft(xs + [Trim(input)], "")
    ensures r.input == input <==> r.interests == xs
  {
    var t := Trim(input);
    if t != [] && !IsKnown(xs, t) then Draft(xs + [t], "") else Draft(xs, input)
  }

  /** The remove handler: a case-sensitive filter that drops every entry equal to `v`. */
  function RemoveInterest(xs: seq<string>, v: string): (r: seq<string>)
    ensures forall x :: x in r <==> x in xs && x != v
    ensures multiset(r) == multiset(xs)[v := 0]
    ensures v !in xs ==> r == xs
    decreases |xs|
  {
    if xs == [] then []
    else
      assert xs == [xs[0]] + xs[1..];
      if xs[0] == v then RemoveInterest(xs[1..], v)
      else [xs[0]] + RemoveInterest(xs[1..], v)
  }

  /** Removal works entry by entry, so it keeps the survivors in their original order. */
  lemma {:induction false} RemoveDistributes(a: seq<string>, b: seq<string>, v: string)
    ensures RemoveInterest(a + b, v) == RemoveInterest(a, v) + RemoveInterest(b, v)
    decreases |a|
  {
    if a == [] {
      assert a + b == b;
    } else {
      assert (a + b)[1..] == a[1..] + b;
      RemoveDistributes(a[1..], b, v);
    }
  }

  /** A list with no case-insensitive duplicates keeps none after a successful add. */
  lemma AddKeepsNoCaseDuplicates(xs: seq<string>, input: string)
    requires NoCaseDuplicates(xs)
    ensures NoCaseDuplicates(AddInterest(xs, input).interests)
  {
  }

  /** Prepending `x` keeps a list duplicate-free exactly when `x` is new up to case. */
  lemma NoCaseDuplicatesCons(x: string, ys: seq<string>)
    ensures NoCaseDuplicates([x] + ys) <==> !ContainsIgnoringCase(ys, x) && NoCaseDuplicates(ys)
  {
    var zs := [x] + ys;
    if NoCaseDuplicates(zs) {
      forall i | 0 <= i < |ys| ensures !SameIgnoringCase(ys[i], x) {
        assert zs[0] == x && zs[i + 1] == ys[i];
      }
      forall i, j | 0 <= i < j < |ys| ensures !SameIgnoringCase(ys[i], ys[j]) {
        assert zs[i + 1] == ys[i] && zs[j + 1] == ys[j];
      }
    }
  }

  /** Case-insensitive membership carries over to any list holding every entry of `xs`. */
  lemma ContainsIgnoringCaseSubset(xs: seq<string>, ys: seq<string>, v: string)
    requires forall x :: x in xs ==> x in ys
    requires ContainsIgnoringCase(xs, v)
    ensures ContainsIgnoringCase(ys, v)
  {
    var i :| 0 <= i < |xs| && SameIgnoringCase(xs[i], v);
    assert xs[i] in ys;
    var j :| 0 <= j < |ys| && ys[j] == xs[i];
  }

  /** Removing never introduces a case-insensitive duplicate. */
  lemma {:induction false} RemoveKeepsNoCaseDuplicates(xs: seq<string>, v: string)
    requires NoCaseDuplicates(xs)
    ensures NoCaseDuplicates(RemoveInterest(xs, v))
    decreases |xs|
  {
    if xs != [] {
      assert xs == [xs[0]] + xs[1..];
      NoCaseDuplicatesCons(xs[0], xs[1..]);
      RemoveKeepsNoCaseDuplicates(xs[1..], v);
      var rest := RemoveInterest(xs[1..], v);
      if xs[0] != v {
        if ContainsIgnoringCase(rest, xs[0]) {
          ContainsIgnoringCaseSubset(rest, xs[1..], xs[0]);
        }
        NoCaseDuplicatesCons(xs[0], rest);
      }
    }
  }

  /** Removing the tag that a successful add just appended gives back the list
      as it was before the add. */
  lemma AddThenRemove(xs: seq<string>, input: string)
    requires AddInterest(xs, input).interests != xs
    ensures RemoveInterest(AddInterest(xs, input).interests, Trim(input)) == xs
  {
    var t := Trim(input);
    assert AddInterest(xs, input).interests == xs + [t];
    RemoveDistributes(xs, [t], t);
    assert RemoveInterest([t], t) == [];
  }

  /** Once an input has been added, adding the same text again is rejected. */
  lemma AddSameTwiceRejected(xs: seq<string>, input: string)
    ensures var once := AddInterest(xs, input).interests;
      AddInterest(once, input).interests == once
  {
    var once := AddInterest(xs, input).interests;
    if once != xs {
      assert once[|xs|] == Trim(input);
      assert SameIgnoringCase(once[|xs|], Trim(input));
    }
  }
}
