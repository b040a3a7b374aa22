/**
  The featured-books carousel: pick up to ten books at random, turn each into
  a card with fallbacks for missing fields, and lay the cards out in three
  rows, each repeated so that it can scroll without a gap.
 */
module ProductCard {
  import opened Wrappers
  import Seqs
  import opened Strings

  /** A catalogue record as the books endpoint returns it; any field may be missing. */
  datatype Book = Book(
    dbId: Option<string>, id: Option<string>,
    title: Option<string>, name: Option<string>,
    description: Option<string>, shortDescription: Option<string>,
    imageUrl: Option<string>, smallImageUrl: Option<string>, image: Option<string>,
    price: Option<int>)

  /** The card built from a record. */
  datatype Product = Product(name: string, description: string, image: string, price: string, id: Option<string>)

  const DefaultImage: string := "https://images.unsplash.com/photo-1507842217343-583f7270bed1?w=400&h=300&fit=crop"

  /** `` `$${book.price || 0}` ``: a missing or zero price reads as 0. */
  function PriceLabel(price: Option<int>): string {
    "$" + IntToString(if price.Some? && price.value != 0 then price.value else 0)
  }

  function ToProduct(b: Book): Product {
    Product(
      OrElse(b.title, OrElse(b.name, "Untitled")),
      OrElse(b.description, OrElse(b.shortDescription, "A great read")),
      OrElse(b.imageUrl, OrElse(b.smallImageUrl, OrElse(b.image, DefaultImage))),
      PriceLabel(b.price),
      if Truthy(b.dbId) then b.dbId else b.id)
  }

  /**
    The card takes the first non-empty of title and name, else "Untitled"; the
    first non-empty description, else "A great read"; the first non-empty
    picture address, else the stock photo; the `_id` when it is
    non-empty, else `id`; and its price label is "$" and the price, or "$0".
   */
  lemma ToProductSpec(b: Book)
    ensures var p := ToProduct(b);
      && p.name != ""
      && (Truthy(b.title) ==> p.name == b.title.value)
      && (!Truthy(b.title) && Truthy(b.name) ==> p.name == b.name.value)
      && (!Truthy(b.title) && !Truthy(b.name) ==> p.name == "Untitled")
      && p.description != ""
      && (Truthy(b.description) ==> p.description == b.description.value)
      && (!Truthy(b.description) && Truthy(b.shortDescription) ==> p.description == b.shortDescription.value)
      && (!Truthy(b.description) && !Truthy(b.shortDescription) ==> p.description == "A great read")
      && p.image != ""
      && (Truthy(b.imageUrl) ==> p.image == b.imageUrl.value)
      && (!Truthy(b.imageUrl) && Truthy(b.smallImageUrl) ==> p.image == b.smallImageUrl.value)
      && (!Truthy(b.imageUrl) && !Truthy(b.smallImageUrl) && Truthy(b.image) ==> p.image == b.image.value)
      && (!Truthy(b.imageUrl) && !Truthy(b.smallImageUrl) && !Truthy(b.image) ==> p.image == DefaultImage)
      && (Truthy(b.dbId) ==> p.id == b.dbId)
      && (!Truthy(b.dbId) ==> p.id == b.id)
      && p.price[0] == '$'
      && (b.price.None? ==> p.price == "$0")
      && (b.price.Some? && b.price.value > 0 ==> p.price == "$" + NatToString(b.price.value))
  {
  }

  /** The digits after the "$" of a positive price read back as that price. */
  lemma PriceLabelReadsBack(price: nat)
    requires price > 0
    ensures PriceLabel(Some(price)) == "$" + NatToString(price)
    ensures ParseDigits(PriceLabel(Some(price))[1..]) == price
  {
    NatToStringRoundTrip(price);
  }

  /**
    `getRandomBooks(books, count)`. The random shuffle is the parameter
    `shuffled`, some reordering of `books`; the result is the first
    `min(count, |books|)` of it, each turned into a card.
   */
  function GetRandomBooks(books: seq<Book>, shuffled: seq<Book>, count: nat): (r: seq<Product>)
    requires multiset(shuffled) == multiset(books)
    ensures |r| <= |shuffled|
    ensures |r| == Seqs.Min(count, |books|)
    ensures forall i :: 0 <= i < |r| ==> r[i] == ToProduct(shuffled[i])
    ensures multiset(shuffled[..|r|]) <= multiset(books)
  {
    assert |shuffled| == |multiset(shuffled)| == |books|;
    var m := Seqs.Min(count, |shuffled|);
    assert shuffled == shuffled[..m] + shuffled[m..];
    Seqs.Map(ToProduct, Seqs.Slice(shuffled, 0, m))
  }

  /** What the carousel shows: a loading line while there are no cards, else three rows. */
  datatype Layout = Loading | Rows(row1: seq<Product>, row2: seq<Product>, row3: seq<Product>)

  /** The split at `ceil(n / 3)` and `ceil(2n / 3)`. */
  function SplitRows(products: seq<Product>): Layout {
    if |products| == 0 then Loading
    else
      var n := |products|;
      var a, b := Seqs.CeilDiv(n, 3), Seqs.CeilDiv(n * 2, 3);
      Rows(Seqs.Slice(products, 0, a), Seqs.Slice(products, a, b), Seqs.Slice(products, b, n))
  }

  /**
    The three rows put back together are the cards in order, and they are
    balanced: the first is longest and the last at most one shorter than it.
   */
  lemma SplitRowsPartition(products: seq<Product>)
    requires products != []
    ensures SplitRows(products).Rows?
    ensures var l := SplitRows(products);
      && l.row1 + l.row2 + l.row3 == products
      && |l.row1| >= |l.row2| >= |l.row3| >= |l.row1| - 1
  {
    var n := |products|;
    var a, b := Seqs.CeilDiv(n, 3), Seqs.CeilDiv(n * 2, 3);
    assert a <= b <= n;
    assert products[0..a] + products[a..b] + products[b..n] == products;
  }

  /** `[...row, ...row]`: the row twice, so its card at position `i` is the row's card at `i mod |row|`. */
  function Duplicated(row: seq<Product>): (r: seq<Product>)
    ensures |r| == 2 * |row|
    ensures forall i :: 0 <= i < |r| ==> r[i] == row[i % |row|]
  {
    var r := row + row;
    SecondRound(|row|);
    r
  }

  /** A position in the second copy is its position in the row plus the row's length. */
  lemma SecondRound(n: nat)
    ensures forall i :: n <= i < 2 * n ==> i % n == i - n
  {
    forall i | n <= i < 2 * n ensures i % n == i - n {
      var k := i - n;
      assert 0 <= k < n;
      assert i == 1 * n + k;
    }
  }
}
