# Bookify storefront — a Dafny model of its client-side logic

Bookify is a React storefront for books. This project models the logic its
pages and stores run in the browser, and proves what that logic promises:

- **cart store** (`cartSlice.js`): find-or-insert by `_id`, removal, quantity
  update, open/close toggle, clearing;
- **wishlist store** (`wishlistSlice.js`): set, add unless a record with the
  same `id` or `_id` is listed, remove by either key, clear, toggle;
- **cart sidebar** (`CartSidebar.js`): the subtotal and the plus, minus and
  trash buttons, whose guard keeps every quantity at 1 or more;
- **books page** (`BooksPage.js`): search and category filter, paging, the
  "Showing a to b of n" line, the five-button page window and the last-page
  button, and the handlers that change page, category, search and page size;
- **admin tables** (`AllSeller.js`, `AllBuyers.js`): search by name or e-mail,
  at least one page, Prev/Next clamped and disabled at the ends, row numbers,
  and the seller edit form;
- **featured carousel** (`ProductCard.jsx`): up to ten random books turned into
  cards with fallbacks, split into three balanced rows, each row doubled;
- **report export** (`downloadReport.js`): the PDF as the list of drawing calls
  (with the cursor and page breaks) and the XML text;
- **class names** (`utils.jsx` and the copy in `Button.jsx`): `cn`;
- **subscription button** (`Button.jsx`): `buttonVariants` and the rendered tag;
- **categories page** (`CategoriesPage.js`): the category list and its URL slugs.

The stores and pages whose state changes in place are classes with `seq`
fields. Their methods state the new state through a function of the old one,
and the lemmas are about those functions. JavaScript semantics are written out
where they matter:

- `undefined === undefined` (keys are `Option` values);
- truthiness and `a || b`;
- `slice` clamping;
- `Math.ceil` of a division;
- ASCII `toLowerCase`;
- `includes`;
- `join`, and `split` on one character;
- `\s` as the ECMAScript set of white-space code points.

Shared helpers live in `Wrappers`, `Seqs` and `Strings`.

## Model

| member | source | states |
|---|---|---|
| CartSlice.FindIndex | src/redux/slices/cartSlice.js:13 | `find` by `_id`: the first entry with that key, or none exactly when no entry has it |
| CartSlice.Added | src/redux/slices/cartSlice.js:12-19 | definition of the list after `addToCart`; its properties are in `AddExistingIncrements`, `AddNewAppends`, `AddKeepsIdsUnique` and `RepeatedAdds` |
| CartSlice.Removed | src/redux/slices/cartSlice.js:20-22 | definition of the list after `removeFromCart`; its properties are in `RemoveDropsOnlyThatId` and `RemoveKeepsIdsUnique` |
| CartSlice.QuantityUpdated | src/redux/slices/cartSlice.js:23-29 | definition of the list after `updateQuantity`; its properties are in `UpdateSetsOnlyMatch` |
| CartSlice.Cart.constructor | src/redux/slices/cartSlice.js:3-6 | the initial state: no entries, sidebar closed |
| CartSlice.Cart.AddToCart | src/redux/slices/cartSlice.js:12-19 | the entries become `Added(old, payload)`; `isOpen` is unchanged |
| CartSlice.Cart.RemoveFromCart | src/redux/slices/cartSlice.js:20-22 | the entries become those whose `_id` differs from the key |
| CartSlice.Cart.UpdateQuantity | src/redux/slices/cartSlice.js:23-29 | the first entry with that key gets the new quantity; nothing happens when none has it |
| CartSlice.Cart.ToggleCart | src/redux/slices/cartSlice.js:30-32 | `isOpen` flips; the entries stay |
| CartSlice.Cart.ClearCart | src/redux/slices/cartSlice.js:33-35 | no entries; `isOpen` stays |
| CartSlice.AddExistingIncrements | src/redux/slices/cartSlice.js:13-15 | adding a listed key raises that entry's quantity by one and changes no other entry |
| CartSlice.AddNewAppends | src/redux/slices/cartSlice.js:16-17 | adding a new key appends the payload with quantity 1, whatever quantity it carried |
| CartSlice.AddKeepsIdsUnique | src/redux/slices/cartSlice.js:12-19 | find-or-insert keeps keys unique |
| CartSlice.RepeatedAdds | src/redux/slices/cartSlice.js:12-19 | `n` adds of one key to an empty cart give one entry of quantity `n` |
| CartSlice.RemoveDropsOnlyThatId | src/redux/slices/cartSlice.js:21 | removal keeps exactly the entries with another key, in order (it distributes over concatenation), and leaves a list without the key unchanged |
| CartSlice.RemoveKeepsIdsUnique | src/redux/slices/cartSlice.js:21 | removal keeps keys unique |
| CartSlice.RemoveThenAdd | src/redux/slices/cartSlice.js:12-22 | after removing a key, adding it again starts a fresh entry of quantity 1 |
| CartSlice.UpdateSetsOnlyMatch | src/redux/slices/cartSlice.js:23-29 | with unique keys, only the entry with the key gets the new quantity, the length and other entries are kept, and keys stay unique |
| CartSlice.ToggleTwice | src/redux/slices/cartSlice.js:30-32 | two toggles restore the whole state |
| WishlistSlice.WishAdded | src/redux/slices/wishlistSlice.js:15-18 | definition of the list after `addToWishlist`; its properties are in `AddAppendsIffNew`, `AddIdempotent`, `MissingKeyCollides` and `AddKeepsDistinct` |
| WishlistSlice.WishRemoved | src/redux/slices/wishlistSlice.js:19-22 | definition of the list after `removeFromWishlist`; its properties are in `RemoveExactly` and `RemoveKeepsDistinct` |
| WishlistSlice.Wishlist.constructor | src/redux/slices/wishlistSlice.js:3-6 | no records, closed |
| WishlistSlice.Wishlist.SetWishlist | src/redux/slices/wishlistSlice.js:12-14 | the list becomes the payload, or empty when it is missing |
| WishlistSlice.Wishlist.AddToWishlist | src/redux/slices/wishlistSlice.js:15-18 | the list becomes `WishAdded(old, payload)` |
| WishlistSlice.Wishlist.RemoveFromWishlist | src/redux/slices/wishlistSlice.js:19-22 | the list becomes the records neither of whose keys equals the key |
| WishlistSlice.Wishlist.ClearWishlist | src/redux/slices/wishlistSlice.js:23-25 | the list is emptied; `isOpen` stays |
| WishlistSlice.Wishlist.ToggleWishlist | src/redux/slices/wishlistSlice.js:26-28 | `isOpen` flips; the list stays |
| WishlistSlice.AddAppendsIffNew | src/redux/slices/wishlistSlice.js:16-17 | add appends if and only if no listed record shares `id` or `_id` with the payload, and otherwise changes nothing |
| WishlistSlice.AddIdempotent | src/redux/slices/wishlistSlice.js:15-18 | adding a record twice is adding it once |
| WishlistSlice.MissingKeyCollides | src/redux/slices/wishlistSlice.js:16 | two records both lacking `_id` (or both lacking `id`) count as the same, so the second is not added |
| WishlistSlice.AddKeepsDistinct | src/redux/slices/wishlistSlice.js:15-18 | add keeps the list free of records that would be taken for one another |
| WishlistSlice.RemoveExactly | src/redux/slices/wishlistSlice.js:20-21 | removal keeps exactly the records with neither key equal to the key, in order; a list without the key is unchanged |
| WishlistSlice.RemoveKeepsDistinct | src/redux/slices/wishlistSlice.js:19-22 | removal keeps the list distinct |
| WishlistSlice.AddThenRemove | src/redux/slices/wishlistSlice.js:15-22 | adding a new record and removing it by one of its keys equals the removal alone |
| WishlistSlice.RemoveByUnderscoreId | src/redux/slices/wishlistSlice.js:21 | an example of `RemoveExactly`: a record known only by `_id` is removed by its `_id` |
| CartSidebar.Subtotal | src/Components/Cart/CartSidebar.js:11-13 | definition of `calculateTotal` before `toFixed`; its properties are in `SubtotalConcat`, `SubtotalReplace`, `SubtotalAfterAdd` and `SubtotalNonNegative` |
| CartSidebar.AfterClick | src/Components/Cart/CartSidebar.js:86-103 | definition of the cart after one minus, plus or trash click; its properties are in `ClickKeepsQuantitiesPositive` and `ClicksKeepQuantitiesPositive` |
| CartSidebar.SubtotalConcat | src/Components/Cart/CartSidebar.js:11-13 | the subtotal of two lists is the sum of their subtotals |
| CartSidebar.SubtotalReplace | src/Components/Cart/CartSidebar.js:11-13 | replacing one entry changes the subtotal by the difference of the two lines |
| CartSidebar.SubtotalAfterAdd | src/Components/Cart/CartSidebar.js:11-13 | after an add, the subtotal grows by exactly one unit price: the listed entry's, or the payload's for a new entry |
| CartSidebar.SubtotalNonNegative | src/Components/Cart/CartSidebar.js:11-13 | with non-negative prices and positive quantities the subtotal is not negative; an empty cart totals 0 |
| CartSidebar.ClickKeepsQuantitiesPositive | src/Components/Cart/CartSidebar.js:15-18 | because `newQuantity < 1` is refused, one click keeps every quantity at least 1 |
| CartSidebar.ClicksKeepQuantitiesPositive | src/Components/Cart/CartSidebar.js:85-103 | any sequence of plus, minus and trash clicks keeps every quantity at least 1 |
| CartSidebar.AddKeepsQuantitiesPositive | src/redux/slices/cartSlice.js:12-19 | an add keeps every quantity at least 1 |
| CartSidebar.HandleQuantityChange | src/Components/Cart/CartSidebar.js:15-18 | a quantity below 1 leaves the cart unchanged; otherwise the cart gets `updateQuantity` |
| CartSidebar.HandleRemoveItem | src/Components/Cart/CartSidebar.js:20-22 | the cart gets `removeFromCart` |
| CartSidebar.ClickButton | src/Components/Cart/CartSidebar.js:85-103 | minus asks for one less, plus for one more, trash removes the row's key |
| BooksPage.FilteredBooks | src/Components/BooksPage/BooksPage.js:54-65 | definition of `filteredBooks`; its properties are in `FilteredBooksSpec`, `NoTextNeverListed` and `EmptySearchKeepsBooksWithText` |
| BooksPage.CurrentBooks | src/Components/BooksPage/BooksPage.js:68-70 | definition of `currentBooks`; its properties are in `CurrentBooksSpec` and `ShowingRange` |
| BooksPage.TotalPages | src/Components/BooksPage/BooksPage.js:71 | definition of `totalPages`; its properties are in `CurrentBooksSpec` |
| BooksPage.PageWindow | src/Components/BooksPage/BooksPage.js:428-440 | definition of the page numbers on the window buttons; its properties are in `PageWindowSpec` |
| BooksPage.ShowsLastPageButton | src/Components/BooksPage/BooksPage.js:459 | definition of the condition for the ellipsis and the last-page button; its properties are in `LastPageButtonSpec` |
| BooksPage.FilteredBooksSpec | src/Components/BooksPage/BooksPage.js:54-65 | a book is listed if and only if it is in the catalogue, one of title, author or genre contains the term ignoring case, and the category is "All" or its genre; the filter distributes over concatenation |
| BooksPage.NoTextNeverListed | src/Components/BooksPage/BooksPage.js:55-58 | a book with no title, author or genre is never listed, even for an empty search |
| BooksPage.EmptySearchKeepsBooksWithText | src/Components/BooksPage/BooksPage.js:54-65 | with an empty search and "All", exactly the books with some text field are listed |
| BooksPage.CurrentBooksSpec | src/Components/BooksPage/BooksPage.js:68-71 | a page holds at most `itemsPerPage` books, its `i`-th book is book number `(page-1)*perPage+i` of the filtered list, and it is non-empty if and only if `page <= totalPages` |
| BooksPage.ShowingRange | src/Components/BooksPage/BooksPage.js:405-411 | the "Showing a to b of n" numbers count exactly the books on the page |
| BooksPage.PageWindowSpec | src/Components/BooksPage/BooksPage.js:428-457 | the window has `min(5, totalPages)` consecutive page numbers, all within `1..totalPages`, and contains the current page when that page exists |
| BooksPage.LastPageButtonSpec | src/Components/BooksPage/BooksPage.js:459-477 | the ellipsis and last-page button appear if and only if the last page is not in the window |
| BooksPage.BooksPageState.constructor | src/Components/BooksPage/BooksPage.js:12-18 | the initial state: no books, page 1, 10 per page, empty search, "All" |
| BooksPage.BooksPageState.BooksLoaded | src/Components/BooksPage/BooksPage.js:40-41 | `setBooks(data)` replaces the books and keeps everything else |
| BooksPage.BooksPageState.NextPage | src/Components/BooksPage/BooksPage.js:76-81 | the page grows by one only below `totalPages`; an existing page stays existing |
| BooksPage.BooksPageState.PrevPage | src/Components/BooksPage/BooksPage.js:83-88 | the page shrinks by one only above 1; an existing page stays existing |
| BooksPage.BooksPageState.Paginate | src/Components/BooksPage/BooksPage.js:74 | the page becomes the number given |
| BooksPage.BooksPageState.SelectCategory | src/Components/BooksPage/BooksPage.js:155-158 | the category changes and the page returns to 1 |
| BooksPage.BooksPageState.SetSearchTerm | src/Components/BooksPage/BooksPage.js:212-215 | the search changes and the page returns to 1 |
| BooksPage.BooksPageState.SetItemsPerPage | src/Components/BooksPage/BooksPage.js:236-239 | the page size becomes the choice and the page returns to 1 |
| BooksPage.ClickWindowButton | src/Components/BooksPage/BooksPage.js:443-448 | clicking any window button lands on an existing page |
| UserTable.Filtered | src/Components/AllSeller/AllSeller.js:24-28 | definition of the `filtered` memo; its properties are in `FilteredSpec`; the same holds for `filtered` at src/Components/AllBuyers/AllBuyers.js:22-26 |
| UserTable.PageItems | src/Components/AllSeller/AllSeller.js:32 | definition of `pageItems`; its properties are in `PageItemsSpec` and `EveryUserOnAPage`; the same holds for `pageItems` at src/Components/AllBuyers/AllBuyers.js:30 |
| UserTable.RowNumber | src/Components/AllSeller/AllSeller.js:96 | definition of the `#` column; its properties are in `PageItemsSpec` and `EveryUserOnAPage`; the same holds for the `#` column at src/Components/AllBuyers/AllBuyers.js:76 |
| UserTable.FilteredSpec | src/Components/AllSeller/AllSeller.js:24-28 | an empty query lists everyone; otherwise exactly the accounts whose name or e-mail (missing reads as "") contains the lower-cased query, in order; the same holds for `filtered` at src/Components/AllBuyers/AllBuyers.js:22-26 |
| UserTable.PageCount | src/Components/AllSeller/AllSeller.js:31 | at least one page, enough pages for every account, and no empty last page; the same holds for the page count at src/Components/AllBuyers/AllBuyers.js:29 |
| UserTable.PrevPage | src/Components/AllSeller/AllSeller.js:130 | `Math.max(1, p - 1)` is at least 1 and one less above 1 |
| UserTable.NextPage | src/Components/AllSeller/AllSeller.js:132 | `Math.min(pages, p + 1)` is at most `pages` and one more below it |
| UserTable.PageItemsSpec | src/Components/AllSeller/AllSeller.js:32 | a page holds at most `perPage` accounts, and its row `i` is account number `RowNumber(page, perPage, i)`; the same holds for `pageItems` at src/Components/AllBuyers/AllBuyers.js:30 |
| UserTable.EveryUserOnAPage | src/Components/AllSeller/AllSeller.js:31-32 | every listed account is on an existing page, and its `#` column is its position plus one |
| AllSeller.SellersTable.constructor | src/Components/AllSeller/AllSeller.js:8-14 | empty query, page 1, no sellers before the query answers |
| AllSeller.SellersTable.SellersLoaded | src/Components/AllSeller/AllSeller.js:14 | `data` replaces the sellers, or `[]` when undefined |
| AllSeller.SellersTable.SearchInput | src/Components/AllSeller/AllSeller.js:76 | typing sets the query and returns to page 1 |
| AllSeller.SellersTable.ClickPrev | src/Components/AllSeller/AllSeller.js:130 | Prev is disabled at page 1 and otherwise goes back one; the page stays in range |
| AllSeller.SellersTable.ClickNext | src/Components/AllSeller/AllSeller.js:132 | Next is disabled on the last page and otherwise goes on one; the page stays in range |
| AllSeller.EditForm.constructor | src/Components/AllSeller/AllSeller.js:164-166 | the form opens on the account's fields, "" for a missing name or e-mail, "seller" for a missing role |
| AllSeller.EditForm.SetName | src/Components/AllSeller/AllSeller.js:171 | the name field takes the typed value |
| AllSeller.EditForm.SetEmail | src/Components/AllSeller/AllSeller.js:173 | the e-mail field takes the typed value |
| AllSeller.EditForm.SetRole | src/Components/AllSeller/AllSeller.js:175-179 | the role becomes one of the three offered options |
| AllSeller.EditForm.Submit | src/Components/AllSeller/AllSeller.js:169 | the form submits exactly its three fields |
| AllSeller.SubmitUnedited | src/Components/AllSeller/AllSeller.js:164-169 | an untouched form submits the account's fields with defaults, and the role is never empty |
| AllBuyers.BuyersTable.constructor | src/Components/AllBuyers/AllBuyers.js:8-13 | empty query, page 1, no buyers |
| AllBuyers.BuyersTable.BuyersLoaded | src/Components/AllBuyers/AllBuyers.js:13 | `data` replaces the buyers, or `[]` when undefined |
| AllBuyers.BuyersTable.SearchInput | src/Components/AllBuyers/AllBuyers.js:57 | typing sets the query and returns to page 1 |
| AllBuyers.BuyersTable.ClickPrev | src/Components/AllBuyers/AllBuyers.js:98 | Prev is disabled at page 1, otherwise goes back one, and never goes below 1 |
| AllBuyers.BuyersTable.ClickNext | src/Components/AllBuyers/AllBuyers.js:100 | Next is disabled on the last page, otherwise goes on one, and never passes the last page |
| ProductCard.ToProduct | src/Components/FeaturedProducts/ProductCard.jsx:7-17 | definition of the card built from a record; its properties are in `ToProductSpec` |
| ProductCard.PriceLabel | src/Components/FeaturedProducts/ProductCard.jsx:15 | definition of the price label; its properties are in `ToProductSpec` and `PriceLabelReadsBack` |
| ProductCard.ToProductSpec | src/Components/FeaturedProducts/ProductCard.jsx:7-17 | the name is the title if truthy, else the name if truthy, else "Untitled"; the description is the description if truthy, else the short description if truthy, else "A great read"; the image is the first truthy of `image_url`, `small_image_url` and `image`, else the stock photo; none of the three is empty; the id is `_id` when truthy, else `id`; the price label starts with "$", is "$0" for a missing price and "$" and the digits for a positive one |
| ProductCard.PriceLabelReadsBack | src/Components/FeaturedProducts/ProductCard.jsx:15 | a positive price's label is "$" followed by its decimal digits, and those digits read back as the price |
| ProductCard.GetRandomBooks | src/Components/FeaturedProducts/ProductCard.jsx:4-18 | the result has `min(count, books.length)` cards, the first ones of the shuffle in order, drawn from the catalogue |
| ProductCard.SplitRows | src/Components/FeaturedProducts/ProductCard.jsx:46-62 | definition of the loading guard and the three-row split; its properties are in `SplitRowsPartition` |
| ProductCard.SplitRowsPartition | src/Components/FeaturedProducts/ProductCard.jsx:56-62 | the three rows put together are the cards in order, and the rows shrink by at most one from first to last |
| ProductCard.Duplicated | src/Components/FeaturedProducts/ProductCard.jsx:64-67 | a doubled row is twice as long, and its card at `i` is the row's card at `i mod length` |
| DownloadReport.Keys | src/Components/SimplePage/downloadReport.js:25 | definition of `Object.keys` over the record's entries; its properties are in `KeysSpec` |
| DownloadReport.KeysSpec | src/Components/SimplePage/downloadReport.js:25 | a header is listed if and only if some entry has that key, and a record with distinct keys has distinct headers |
| DownloadReport.RowLine | src/Components/SimplePage/downloadReport.js:32-33 | definition of one printed row; its properties are in `HeaderRowPrintsOwnValues` and `RowOpsTexts` |
| DownloadReport.LookupMissing | src/Components/SimplePage/downloadReport.js:32 | looking up a key the record lacks yields `undefined` |
| DownloadReport.LookupFirst | src/Components/SimplePage/downloadReport.js:32 | a key is read from its first entry |
| DownloadReport.HeaderRowPrintsOwnValues | src/Components/SimplePage/downloadReport.js:25-33 | the first record prints its own values in key order; a missing header prints as "" |
| DownloadReport.PdfDocument | src/Components/SimplePage/downloadReport.js:15-43 | definition of the calls the PDF branch makes; its properties are in `PdfDocumentSpec`, `RowsDrawnOnPage` and `RowOpsTexts` |
| DownloadReport.RenderPdf | src/Components/SimplePage/downloadReport.js:15-43 | the calls made are those of `PdfDocument`: title, header, one line per record with the cursor and page breaks, save |
| DownloadReport.RowsDrawnOnPage | src/Components/SimplePage/downloadReport.js:31-40 | every row is drawn at the left margin between heights 10 and 280 |
| DownloadReport.RowOpsTexts | src/Components/SimplePage/downloadReport.js:31-40 | the row loop draws one line per record, in record order |
| DownloadReport.PdfDocumentSpec | src/Components/SimplePage/downloadReport.js:15-43 | the PDF draws the title, the header line and one line per record in order, every row on the page, and saves as `<fileName>.pdf` |
| DownloadReport.XmlDocument | src/Components/SimplePage/downloadReport.js:45-54 | definition of the XML text; its properties are in `XmlDocumentLines`, `XmlReadsBackByLines` and `XmlRowsConcat` |
| DownloadReport.AppendRow | src/Components/SimplePage/downloadReport.js:47-53 | one turn of the outer loop appends exactly the record's `<row>` block |
| DownloadReport.BuildXml | src/Components/SimplePage/downloadReport.js:45-54 | the text built is `XmlDocument(data)` |
| DownloadReport.XmlDocumentLines | src/Components/SimplePage/downloadReport.js:45-54 | the document is its lines joined by line breaks |
| DownloadReport.XmlReadsBackByLines | src/Components/SimplePage/downloadReport.js:45-54 | when no key or text value holds a line break, splitting the text on line breaks gives the declaration, `<report>`, a block per record with one line per entry in order, and `</report>` |
| DownloadReport.XmlRowsConcat | src/Components/SimplePage/downloadReport.js:47-53 | the XML of two lists of records is the blocks of both, in order |
| DownloadReport.Download | src/Components/SimplePage/downloadReport.js:9-62 | missing or empty data raises the alert and exports nothing; "pdf" gives `PdfDocument`; "xml" gives `XmlDocument` as `<fileName>.xml`; any other format does nothing; defaults "pdf" and "report" |
| ClassNames.Kept | src/Components/SimplePage/utils.jsx:12-14 | the kept classes are no more than the arguments and none is empty |
| ClassNames.Cn | src/Components/SimplePage/utils.jsx:12-14 | definition of `cn`; its properties are in `CnEmpty`, `CnConcat`, `CnSingle` and `CnSplit` |
| ClassNames.KeptSpec | src/Components/SimplePage/utils.jsx:13 | a class is kept if and only if it is a non-empty argument |
| ClassNames.CnEmpty | src/Components/SimplePage/utils.jsx:12-14 | `cn` gives "" if and only if every argument is falsy |
| ClassNames.CnConcat | src/Components/SimplePage/utils.jsx:12-14 | `cn` of two argument lists joins their results with one space, skipping an empty side |
| ClassNames.CnSingle | src/Components/SimplePage/utils.jsx:12-14 | one truthy argument among falsy ones is returned as it is |
| ClassNames.CnSplit | src/Components/SimplePage/utils.jsx:12-14 | without spaces inside the arguments, splitting the result on spaces gives back the kept arguments |
| SubscriptionButton.TablesSpec | src/Components/subscription/Button.jsx:16-30 | a table lookup is truthy if and only if the key is in the table |
| SubscriptionButton.ButtonVariants | src/Components/subscription/Button.jsx:9-33 | definition of `buttonVariants`; its properties are in `ButtonVariantsSpec`, `StartsWithBase` and, through `Classes`, the lemmas below |
| SubscriptionButton.Classes | src/Components/subscription/Button.jsx:32 | definition of the `cn` call for any base classes; its properties are in `ClassesSpec`, `UnknownKeysDropped`, `ClassesEndWithExtra` and `ClassesDefault` |
| SubscriptionButton.ClassesSpec | src/Components/subscription/Button.jsx:9-33 | the classes are the base, the variant entry when its key is known, the size entry when its key is known, then the extra classes when non-empty, separated by spaces |
| SubscriptionButton.ButtonVariantsSpec | src/Components/subscription/Button.jsx:9-33 | the same, for the button's own base classes |
| SubscriptionButton.StartsWithBase | src/Components/subscription/Button.jsx:10-14 | the result always starts with the base classes |
| SubscriptionButton.UnknownKeysDropped | src/Components/subscription/Button.jsx:32 | an unknown variant or size adds nothing |
| SubscriptionButton.ClassesEndWithExtra | src/Components/subscription/Button.jsx:32 | non-empty extra classes come last, after one space |
| SubscriptionButton.ClassesDefault | src/Components/subscription/Button.jsx:9 | with nothing given, the result is the base, the default variant and the default size |
| SubscriptionButton.RenderButton | src/Components/subscription/Button.jsx:36-39 | the tag is "span" if and only if `asChild`, else "button"; the classes are `buttonVariants(variant, size, className)` |
| CategoriesPage.Collapse | src/Components/CategoriesPage/CategoriesPage.js:31 | definition of `replace(/\s+/g, '-')`; its properties are in `CollapseChars`, `CollapseNoSpace` and `CollapseRun` |
| CategoriesPage.Slug | src/Components/CategoriesPage/CategoriesPage.js:31 | definition of the slug; its properties are in `SlugIdempotent`, `SlugOfWord` and `SlugOfTwoWords` |
| CategoriesPage.CategoryLink | src/Components/CategoriesPage/CategoriesPage.js:31 | definition of a card's link; its properties are in `CategoryLinkSpec` and `ScienceFictionLink` |
| CategoriesPage.DropSpaces | src/Components/CategoriesPage/CategoriesPage.js:31 | dropping leading white space leaves a suffix that does not start with white space |
| CategoriesPage.CollapseChars | src/Components/CategoriesPage/CategoriesPage.js:31 | a slug holds no white space, and each of its characters is "-" or one of the name's |
| CategoriesPage.CollapseNoSpace | src/Components/CategoriesPage/CategoriesPage.js:31 | text without white space is left alone |
| CategoriesPage.CollapseRun | src/Components/CategoriesPage/CategoriesPage.js:31 | a run of white space between words becomes exactly one "-" |
| CategoriesPage.SlugIdempotent | src/Components/CategoriesPage/CategoriesPage.js:31 | the slug of a slug is the slug |
| CategoriesPage.SlugOfWord | src/Components/CategoriesPage/CategoriesPage.js:31 | a one-word name's slug is the name lower-cased |
| CategoriesPage.SlugOfTwoWords | src/Components/CategoriesPage/CategoriesPage.js:31 | two words and one space give the lower-cased words joined by "-" |
| CategoriesPage.ScienceFictionSlug | src/Components/CategoriesPage/CategoriesPage.js:8 | an example of `SlugOfTwoWords`: "Science Fiction" links to `science-fiction` |
| CategoriesPage.SelfHelpSlug | src/Components/CategoriesPage/CategoriesPage.js:13 | an example of `SlugOfWord`: "Self-Help" links to `self-help` |
| CategoriesPage.CategoryLinkSpec | src/Components/CategoriesPage/CategoriesPage.js:31 | every link is `/category/` followed by text without white space |
| CategoriesPage.ScienceFictionLink | src/Components/CategoriesPage/CategoriesPage.js:5-14 | the third card of the list, "Science Fiction", links to `/category/science-fiction` |

## Left out

- Network and persistence: the `fetch` calls (books, users, update, delete), `react-query` refetching and store setup are not modelled. Their answers are parameters (`BooksLoaded`, `SellersLoaded`, `BuyersLoaded`).
- Deleting a seller or buyer and saving an edit are requests to the server. The model only records what the form submits.
- Prices are integers (cents in the cart, whole amounts on the cards). `toFixed(2)`, fractional prices and `NaN` are not modelled.
- `Math.random()` and the sort-based shuffle: the shuffle is a parameter that is some reordering of the books.
- Drawing in jsPDF, the `Blob`/link download and `alert` are side effects. The PDF is modelled as the list of calls made, and the alert as a result value.
- Values in the exported records are `null`, `undefined` or text. Any other value (a number, a boolean, an object, an array) stands as `Str` of its ECMAScript ToString text, which a template literal and `join` both write; the two differ only on `null` and `undefined`, which `Template` and `JoinText` keep apart. Computing ToString itself (number formatting, `[object Object]`, the elements of an array) is not modelled.
- `Object.keys` puts integer-like keys first. The model keeps entry order, as for keys that are not integer-like. Duplicate keys cannot occur in a JavaScript object, and a lookup reads the first.
- `toLowerCase` changes only ASCII letters here. Other letters, and case mappings that change length, are not modelled.
- `SubscriptionButton.Entry`: object keys inherited from the prototype (such as "constructor") are not treated as table entries.
- The books page's category sidebar list, loading and error states, toasts, animations and all markup and styling are presentational and left out.
- `window.scrollTo` is not modelled.
- `ProductCards`'s own loading flag and its `fetch` are left out. Its card layout is modelled: the loading guard is the `Loading` layout.
- DownloadReport.Lookup: `row[h]` also finds properties inherited from `Object.prototype` (such as "toString" or "constructor"), which print as function text; the model's record holds only its own entries, so such keys are not modelled.
- DownloadReport.LookupMissing: a missing key reads as `undefined` only for keys that are not inherited properties of `Object.prototype`; inherited keys are not modelled.
- DownloadReport.HeaderRowPrintsOwnValues: a header that a later record lacks prints as "" only when it is not an inherited property of `Object.prototype`; inherited keys are not modelled.
- DownloadReport.Download: `None` stands only for an absent (`undefined`) argument, which takes the default. An explicit `null` is not expressible: JavaScript keeps it, so `format = null` exports nothing and `fileName = null` writes "null Report".
- SubscriptionButton.ButtonVariants: `None` stands only for an absent (`undefined`) argument, which takes the default; an explicit `null` variant or size, which JavaScript keeps and which then looks up the key "null", is not expressible.
