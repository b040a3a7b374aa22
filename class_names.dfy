/**
  `cn(...classes)`: the class-name helper of the report page. Falsy arguments
  (`false`, `null`, `undefined`, "") are dropped and the rest joined with
  single spaces, in argument order.
 */
module ClassNames {
  import opened Wrappers
  import opened Strings

  /** `classes.filter(Boolean)`, each argument read as a string or a falsy value. */
  function Kept(classes: seq<Option<string>>): (r: seq<string>)
    ensures |r| <= |classes|
    ensures forall i :: 0 <= i < |r| ==> r[i] != ""
    decreases |classes|
  {
    if classes == [] then []
    else (if Truthy(classes[0]) then [classes[0].value] else []) + Kept(classes[1..])
  }

  function Cn(classes: seq<Option<string>>): string {
    Join(Kept(classes), " ")
  }

  lemma {:induction false} KeptConcat(a: seq<Option<string>>, b: seq<Option<string>>)
    ensures Kept(a + b) == Kept(a) + Kept(b)
    decreases |a|
  {
    if a == [] {
      assert a + b == b;
    } else {
      assert (a + b)[0] == a[0] && (a + b)[1..] == a[1..] + b;
      KeptConcat(a[1..], b);
    }
  }

  /** The kept arguments are exactly the truthy ones. */
  lemma {:induction false} KeptSpec(classes: seq<Option<string>>)
    ensures forall c :: c in Kept(classes) <==> Some(c) in classes && c != ""
    decreases |classes|
  {
    if classes != [] {
      KeptSpec(classes[1..]);
      assert classes == [classes[0]] + classes[1..];
    }
  }

  /** A join of non-empty pieces is empty only when there are no pieces. */
  lemma {:induction false} JoinNonEmpty(xs: seq<string>, sep: string)
    requires forall i :: 0 <= i < |xs| ==> xs[i] != ""
    ensures Join(xs, sep) == "" <==> xs == []
    decreases |xs|
  {
    if |xs| > 1 {
      assert |Join(xs, sep)| >= |xs[0]| > 0;
    }
  }

  /** The result is "" exactly when every argument is falsy. */
  lemma CnEmpty(classes: seq<Option<string>>)
    ensures Cn(classes) == "" <==> forall i :: 0 <= i < |classes| ==> !Truthy(classes[i])
  {
    KeptSpec(classes);
    JoinNonEmpty(Kept(classes), " ");
    if Kept(classes) != [] {
      assert Kept(classes)[0] in Kept(classes);
    }
  }

  /** Adding arguments at either end: the two results joined by a space, or one of them when the other is "". */
  lemma CnConcat(a: seq<Option<string>>, b: seq<Option<string>>)
    ensures Cn(a + b) == if Cn(a) == "" then Cn(b) else if Cn(b) == "" then Cn(a) else Cn(a) + " " + Cn(b)
  {
    KeptConcat(a, b);
    JoinConcat(Kept(a), Kept(b), " ");
    JoinNonEmpty(Kept(a), " ");
    JoinNonEmpty(Kept(b), " ");
  }

  /** A single truthy argument among falsy ones comes back unchanged. */
  lemma CnSingle(before: seq<Option<string>>, c: string, after: seq<Option<string>>)
    requires c != ""
    requires forall i :: 0 <= i < |before| ==> !Truthy(before[i])
    requires forall i :: 0 <= i < |after| ==> !Truthy(after[i])
    ensures Cn(before + [Some(c)] + after) == c
  {
    CnEmpty(before);
    CnEmpty(after);
    CnConcat(before, [Some(c)]);
    CnConcat(before + [Some(c)], after);
    assert Kept([Some(c)]) == [c] by {
      assert [Some(c)][1..] == [];
    }
  }

  /**
    When no truthy argument holds a space, splitting the result on spaces
    gives back the truthy arguments in order.
   */
  lemma CnSplit(classes: seq<Option<string>>)
    requires exists i :: 0 <= i < |classes| && Truthy(classes[i])
    requires forall i :: 0 <= i < |classes| && classes[i].Some? ==> ' ' !in classes[i].value
    ensures Split(Cn(classes), ' ') == Kept(classes)
  {
    KeptSpec(classes);
    CnEmpty(classes);
    forall i | 0 <= i < |Kept(classes)| ensures ' ' !in Kept(classes)[i] {
      assert Kept(classes)[i] in Kept(classes);
    }
    SplitJoin(Kept(classes), ' ');
  }
}
