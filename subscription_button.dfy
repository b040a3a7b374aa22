/**
  The subscription page's button: `buttonVariants(variant, size, extra)` looks
  the variant and the size up in two fixed tables and passes the base classes,
  the two entries and the caller's classes to `cn`; `Button` renders a `span`
  or a `button` with those classes.
 */
module SubscriptionButton {
  import opened Wrappers
  import opened Strings
  import opened ClassNames

  const Base: string :=
    "inline-flex items-center justify-center gap-2 whitespace-nowrap rounded-md text-sm font-medium " +
    "ring-offset-background transition-colors focus-visible:outline-none focus-visible:ring-2 " +
    "focus-visible:ring-ring focus-visible:ring-offset-2 disabled:pointer-events-none disabled:opacity-50 " +
    "[&_svg]:pointer-events-none [&_svg]:size-4 [&_svg]:shrink-0"

  /** The `variants` table. */
  const Variants: map<string, string> := map[
    "default" := "bg-primary text-primary-foreground hover:bg-primary/90",
    "destructive" := "bg-destructive text-destructive-foreground hover:bg-destructive/90",
    "outline" := "border border-input bg-background hover:bg-accent hover:text-accent-foreground",
    "secondary" := "bg-secondary text-secondary-foreground hover:bg-secondary/80",
    "ghost" := "hover:bg-accent hover:text-accent-foreground",
    "link" := "text-primary underline-offset-4 hover:underline"]

  /** The `sizes` table. */
  const Sizes: map<string, string> := map[
    "default" := "h-10 px-4 py-2",
    "sm" := "h-9 rounded-md px-3",
    "lg" := "h-11 rounded-md px-8",
    "icon" := "h-10 w-10"]

  /** `table[key]`: `undefined` for a key the table lacks. */
  function Entry(table: map<string, string>, key: string): (r: Option<string>)
    ensures r.Some? <==> key in table
    ensures r.Some? ==> r.value == table[key]
  {
    if key in table then Some(table[key]) else None
  }

  /** Every entry of both tables is a non-empty class list, so a lookup is truthy exactly when the key is in the table. */
  lemma TablesSpec(table: map<string, string>, key: string)
    requires table == Variants || table == Sizes
    ensures Truthy(Entry(table, key)) <==> key in table
  {
  }

  /** `buttonVariants(variant = "default", size = "default", extra = "")`; an absent argument is `undefined`. */
  function ButtonVariants(variant: Option<string>, size: Option<string>, extra: Option<string>): string {
    Classes(Base, variant, size, extra)
  }

  /** The `cn` call of `buttonVariants`, for base classes `base`. */
  function Classes(base: string, variant: Option<string>, size: Option<string>, extra: Option<string>): string {
    Cn([Some(base), Entry(Variants, variant.GetOr("default")), Entry(Sizes, size.GetOr("default")), extra])
  }

  /** The pieces the class list is made of, in order. */
  function Pieces(base: string, variant: Option<string>, size: Option<string>, extra: Option<string>): seq<string> {
    var v, s := variant.GetOr("default"), size.GetOr("default");
    [base]
    + (if v in Variants then [Variants[v]] else [])
    + (if s in Sizes then [Sizes[s]] else [])
    + (if Truthy(extra) then [extra.value] else [])
  }

  lemma KeptOne(o: Option<string>)
    ensures Kept([o]) == if Truthy(o) then [o.value] else []
  {
    assert [o][1..] == [];
  }

  lemma {:induction false} ClassesSpec(base: string, variant: Option<string>, size: Option<string>, extra: Option<string>)
    requires base != ""
    ensures Classes(base, variant, size, extra) == Join(Pieces(base, variant, size, extra), " ")
  {
    var v, s := variant.GetOr("default"), size.GetOr("default");
    TablesSpec(Variants, v);
    TablesSpec(Sizes, s);
    var b, ev, es := Some(base), Entry(Variants, v), Entry(Sizes, s);
    KeptFour(b, ev, es, extra);
    KeptOne(b);
    KeptOne(ev);
    KeptOne(es);
    KeptOne(extra);
  }

  lemma BaseNonEmpty()
    ensures Base != ""
  {
    assert |Base| > 0;
  }

  /**
    The classes are the base classes, then the variant's entry when the key is
    in the table, then the size's entry when that key is in the table, then
    the caller's classes when they are not empty, separated by single spaces.
   */
  lemma ButtonVariantsSpec(variant: Option<string>, size: Option<string>, extra: Option<string>)
    ensures ButtonVariants(variant, size, extra) == Join(Pieces(Base, variant, size, extra), " ")
  {
    BaseNonEmpty();
    ClassesSpec(Base, variant, size, extra);
  }

  lemma {:induction false} ClassesStartWithBase(base: string, variant: Option<string>, size: Option<string>, extra: Option<string>)
    requires base != ""
    ensures |base| <= |Classes(base, variant, size, extra)|
    ensures Classes(base, variant, size, extra)[..|base|] == base
  {
    ClassesSpec(base, variant, size, extra);
    var p := Pieces(base, variant, size, extra);
    JoinConcat([base], p[1..], " ");
    assert p == [base] + p[1..];
  }

  /** The result always starts with the base classes. */
  lemma StartsWithBase(variant: Option<string>, size: Option<string>, extra: Option<string>)
    ensures |Base| <= |ButtonVariants(variant, size, extra)|
    ensures ButtonVariants(variant, size, extra)[..|Base|] == Base
  {
    BaseNonEmpty();
    ClassesStartWithBase(Base, variant, size, extra);
  }

  /** A key outside its table adds nothing: the result is as if that entry were missing. */
  lemma UnknownKeysDropped(base: string, variant: Option<string>, size: Option<string>, extra: Option<string>)
    ensures variant.GetOr("default") !in Variants ==>
      Classes(base, variant, size, extra) == Cn([Some(base), Entry(Sizes, size.GetOr("default")), extra])
    ensures size.GetOr("default") !in Sizes ==>
      Classes(base, variant, size, extra) == Cn([Some(base), Entry(Variants, variant.GetOr("default")), extra])
  {
    var b, v, s := Some(base), Entry(Variants, variant.GetOr("default")), Entry(Sizes, size.GetOr("default"));
    if !Truthy(v) {
      SecondDropped(b, v, s, extra);
    }
    if !Truthy(s) {
      ThirdDropped(b, v, s, extra);
    }
  }

  /** A falsy second argument of a four-argument `cn` call adds nothing. */
  lemma SecondDropped(b: Option<string>, v: Option<string>, s: Option<string>, extra: Option<string>)
    requires !Truthy(v)
    ensures Cn([b, v, s, extra]) == Cn([b, s, extra])
  {
    KeptOne(v);
    KeptFour(b, v, s, extra);
    KeptThree(b, s, extra);
    var kb, ks, ke := Kept([b]), Kept([s]), Kept([extra]);
    assert kb + [] + ks + ke == kb + ks + ke;
  }

  /** A falsy third argument of a four-argument `cn` call adds nothing. */
  lemma ThirdDropped(b: Option<string>, v: Option<string>, s: Option<string>, extra: Option<string>)
    requires !Truthy(s)
    ensures Cn([b, v, s, extra]) == Cn([b, v, extra])
  {
    KeptOne(s);
    KeptFour(b, v, s, extra);
    KeptThree(b, v, extra);
    var kb, kv, ke := Kept([b]), Kept([v]), Kept([extra]);
    assert kb + kv + [] + ke == kb + kv + ke;
  }

  lemma KeptFour(a: Option<string>, b: Option<string>, c: Option<string>, d: Option<string>)
    ensures Kept([a, b, c, d]) == Kept([a]) + Kept([b]) + Kept([c]) + Kept([d])
  {
    assert [a, b, c, d] == [a] + [b] + [c] + [d];
    KeptConcat([a] + [b] + [c], [d]);
    KeptConcat([a] + [b], [c]);
    KeptConcat([a], [b]);
  }

  lemma KeptThree(a: Option<string>, b: Option<string>, c: Option<string>)
    ensures Kept([a, b, c]) == Kept([a]) + Kept([b]) + Kept([c])
  {
    assert [a, b, c] == [a] + [b] + [c];
    KeptConcat([a] + [b], [c]);
    KeptConcat([a], [b]);
  }

  /** Caller classes that are not empty come last, after a space. */
  lemma {:induction false} ClassesEndWithExtra(base: string, variant: Option<string>, size: Option<string>, extra: string)
    requires base != "" && extra != ""
    ensures var r := Classes(base, variant, size, Some(extra));
      |extra| < |r| && r[|r| - |extra| - 1..] == " " + extra
  {
    ClassesSpec(base, variant, size, Some(extra));
    var p := Pieces(base, variant, size, Some(extra));
    var init := p[..|p| - 1];
    assert p == init + [extra];
    assert init != [] by {
      assert p[0] == base;
    }
    JoinConcat(init, [extra], " ");
  }

  /** With no variant, size or extra classes given, the base is followed by the default variant and the default size. */
  lemma ClassesDefault(base: string)
    requires base != ""
    ensures Classes(base, None, None, None) == base + " " + (Variants["default"] + " " + Sizes["default"])
  {
    ClassesSpec(base, None, None, None);
    var p := Pieces(base, None, None, None);
    var v, z := Variants["default"], Sizes["default"];
    assert p == [base, v, z];
    assert p[1..] == [v, z] && [v, z][1..] == [z];
    assert Join([v, z], " ") == v + " " + z;
  }

  /** What `Button` renders: the element and its class attribute. */
  datatype Element = Element(tag: string, className: string)

  /** `Button({className, variant, size, asChild = false})`. */
  function RenderButton(className: Option<string>, variant: Option<string>, size: Option<string>, asChild: bool): (e: Element)
    ensures e.tag == "span" <==> asChild
    ensures e.tag == "button" <==> !asChild
    ensures e.className == ButtonVariants(variant, size, className)
  {
    Element(if asChild then "span" else "button", ButtonVariants(variant, size, className))
  }
}
