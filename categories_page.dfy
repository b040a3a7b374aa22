/**
  The categories page: a fixed list of eight categories, each linking to
  `/category/<slug>`, where the slug is the name lower-cased with every run of
  whitespace replaced by one '-' (`name.toLowerCase().replace(/\s+/g, '-')`).
 */
module CategoriesPage {
  import Seqs
  import opened Strings

  /** The characters the regular-expression class `\s` matches: white space and line terminators. */
  predicate IsSpace(c: char) {
    var n := c as int;
    (9 <= n <= 13) || n == 32 || n == 0xA0 || n == 0x1680 || (0x2000 <= n <= 0x200A) ||
    n == 0x2028 || n == 0x2029 || n == 0x202F || n == 0x205F || n == 0x3000 || n == 0xFEFF
  }

  predicate NoSpace(s: string) {
    forall i :: 0 <= i < |s| ==> !IsSpace(s[i])
  }

  /** What is left of `s` after its leading whitespace. */
  function DropSpaces(s: string): (r: string)
    ensures |r| <= |s| && r == s[|s| - |r|..]
    ensures r == [] || !IsSpace(r[0])
    decreases |s|
  {
    if s != [] && IsSpace(s[0]) then DropSpaces(s[1..]) else s
  }

  /** `replace(/\s+/g, '-')`: each maximal run of whitespace becomes one '-'. */
  function Collapse(s: string): string
    decreases |s|
  {
    if s == [] then []
    else if IsSpace(s[0]) then "-" + Collapse(DropSpaces(s[1..]))
    else [s[0]] + Collapse(s[1..])
  }

  function Slug(name: string): string {
    Collapse(Lower(name))
  }

  /** The result has no whitespace; each of its characters is '-' or a character of the input. */
  lemma {:induction false} CollapseChars(s: string)
    ensures NoSpace(Collapse(s))
    ensures forall c :: c in Collapse(s) ==> c == '-' || c in s
    decreases |s|
  {
    if s != [] {
      if IsSpace(s[0]) {
        var t := DropSpaces(s[1..]);
        CollapseChars(t);
        PrependChar(s, '-', t, Collapse(t));
      } else {
        CollapseChars(s[1..]);
        PrependChar(s, s[0], s[1..], Collapse(s[1..]));
      }
    }
  }

  /** One step of `CollapseChars`: a character put in front of the collapsed rest of a suffix. */
  lemma PrependChar(s: string, x: char, t: string, r: string)
    requires !IsSpace(x) && (x == '-' || x in s)
    requires |t| <= |s| && t == s[|s| - |t|..]
    requires NoSpace(r) && forall c :: c in r ==> c == '-' || c in t
    ensures NoSpace([x] + r)
    ensures forall c :: c in [x] + r ==> c == '-' || c in s
  {
    SuffixChars(s, |s| - |t|);
    assert forall i :: 1 <= i < |[x] + r| ==> ([x] + r)[i] == r[i - 1];
  }

  lemma SuffixChars(s: string, k: nat)
    requires k <= |s|
    ensures forall c :: c in s[k..] ==> c in s
  {
    forall c | c in s[k..] ensures c in s {
      var j :| 0 <= j < |s[k..]| && s[k..][j] == c;
      assert s[k + j] == c;
    }
  }

  /** Text without whitespace is left alone. */
  lemma {:induction false} CollapseNoSpace(s: string)
    requires NoSpace(s)
    ensures Collapse(s) == s
    decreases |s|
  {
    if s != [] {
      CollapseNoSpace(s[1..]);
    }
  }

  lemma {:induction false} DropSpacesRun(r: string, y: string)
    requires forall i :: 0 <= i < |r| ==> IsSpace(r[i])
    requires y == [] || !IsSpace(y[0])
    ensures DropSpaces(r + y) == y
    decreases |r|
  {
    if r == [] {
      assert r + y == y;
    } else {
      assert (r + y)[0] == r[0] && (r + y)[1..] == r[1..] + y;
      DropSpacesRun(r[1..], y);
    }
  }

  /**
    A whitespace run between a stretch `x` without whitespace and text `y`
    that does not start with whitespace becomes exactly one '-', and `x` is
    kept as it is.
   */
  lemma {:induction false} CollapseRun(x: string, r: string, y: string)
    requires NoSpace(x)
    requires |r| > 0 && forall i :: 0 <= i < |r| ==> IsSpace(r[i])
    requires y == [] || !IsSpace(y[0])
    ensures Collapse(x + r + y) == x + "-" + Collapse(y)
    decreases |x|
  {
    if x == [] {
      assert x + r + y == r + y;
      assert (r + y)[0] == r[0] && (r + y)[1..] == r[1..] + y;
      DropSpacesRun(r[1..], y);
    } else {
      assert (x + r + y)[0] == x[0] && (x + r + y)[1..] == x[1..] + r + y;
      CollapseRun(x[1..], r, y);
    }
  }

  /** The slug is lower-case already, so making a slug of a slug changes nothing. */
  lemma SlugIdempotent(name: string)
    ensures Slug(Slug(name)) == Slug(name)
  {
    var s := Slug(name);
    CollapseChars(Lower(name));
    assert Lower(s) == s by {
      forall i | 0 <= i < |s| ensures LowerChar(s[i]) == s[i] {
        if s[i] != '-' {
          assert s[i] in Lower(name);
          var k :| 0 <= k < |Lower(name)| && Lower(name)[k] == s[i];
        }
      }
    }
    CollapseNoSpace(s);
  }

  /** Lower-casing neither makes nor removes whitespace. */
  lemma LowerKeepsSpaces(s: string)
    ensures forall i :: 0 <= i < |s| ==> (IsSpace(Lower(s)[i]) <==> IsSpace(s[i]))
  {
  }

  lemma LowerConcat(a: string, b: string)
    ensures Lower(a + b) == Lower(a) + Lower(b)
  {
  }

  /** A name in one word has the lower-cased name as its slug. */
  lemma SlugOfWord(name: string)
    requires NoSpace(name)
    ensures Slug(name) == Lower(name)
  {
    LowerKeepsSpaces(name);
    CollapseNoSpace(Lower(name));
  }

  /** Two words separated by one space give the two lower-cased words joined by '-'. */
  lemma SlugOfTwoWords(a: string, b: string)
    requires NoSpace(a) && NoSpace(b)
    ensures Slug(a + " " + b) == Lower(a) + "-" + Lower(b)
  {
    LowerConcat(a + " ", b);
    LowerConcat(a, " ");
    assert Lower(" ") == " ";
    LowerKeepsSpaces(a);
    LowerKeepsSpaces(b);
    CollapseRun(Lower(a), " ", Lower(b));
    CollapseNoSpace(Lower(b));
  }

  /** A category card's data. */
  datatype Category = Category(id: nat, name: string, count: nat)

  /** The list the page shows; it never changes. */
  const Categories: seq<Category> := [
    Category(1, "Fiction", 125), Category(2, "Mystery", 89), Category(3, "Science Fiction", 76),
    Category(4, "Fantasy", 112), Category(5, "Romance", 143), Category(6, "Biography", 67),
    Category(7, "History", 54), Category(8, "Self-Help", 98)]

  /** The link of a category card. */
  function CategoryLink(c: Category): string {
    "/category/" + Slug(c.name)
  }

  /** Every link is `/category/` followed by text without white space. */
  lemma CategoryLinkSpec(c: Category)
    ensures |CategoryLink(c)| >= 10 && CategoryLink(c)[..10] == "/category/"
    ensures NoSpace(CategoryLink(c)[10..])
  {
    CollapseChars(Lower(c.name));
    assert CategoryLink(c)[10..] == Slug(c.name);
  }

  /** The third card, "Science Fiction", links to `/category/science-fiction`. */
  lemma ScienceFictionLink()
    ensures CategoryLink(Categories[2]) == "/category/science-fiction"
  {
    assert Categories[2].name == "Science Fiction";
    ScienceFictionSlug();
  }

  /** The two-word category links to "science-fiction". */
  lemma ScienceFictionSlug()
    ensures Slug("Science Fiction") == "science-fiction"
  {
    ScienceFictionWords();
    SlugOfTwoWords("Science", "Fiction");
    ScienceFictionLowered();
  }

  lemma ScienceFictionWords()
    ensures "Science Fiction" == "Science" + " " + "Fiction"
    ensures NoSpace("Science") && NoSpace("Fiction")
  {
  }

  lemma ScienceFictionLowered()
    ensures Lower("Science") + "-" + Lower("Fiction") == "science-fiction"
  {
    assert Lower("Science") == "science";
    assert Lower("Fiction") == "fiction";
  }

  /** A hyphen in a name is kept. */
  lemma SelfHelpSlug()
    ensures Slug("Self-Help") == "self-help"
  {
    SelfHelpWord();
    SlugOfWord("Self-Help");
  }

  lemma SelfHelpWord()
    ensures NoSpace("Self-Help") && Lower("Self-Help") == "self-help"
  {
  }
}
