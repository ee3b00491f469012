# Swiggy pizza extractor, modelled in Dafny

The service queries a food-delivery search endpoint for pizzas in one city.
Its `/search-filtered` route turns the deeply nested JSON answer into a flat
list of `PizzaItem` records: restaurant name, item name, price and delivery
time. This project models that extractor, which is the body of
`search_pizza_filtered` (main.py:134-212), and the `PizzaItem` record
(main.py:39-43). It then proves what the extractor does with any response.

The extractor descends `data` → `cards[]` → `groupedCard` → `cardGroupMap{}` →
each group's `cards[]` → `card` → `card`. An inner card whose `@type` is the dish
type and that has an `info` key is a *candidate*. For each candidate, a `try`
block reads the restaurant name, item name, price and delivery time, and
appends one item.

Modules:

- `Results` (results.dfy): the two Python exceptions that can escape, plus `Option` and `Result`.
- `PyJson` (json.dfy) models a parsed JSON value and the Python operations the code applies to it:
  - `key in v` followed by `v[key]` (`Descend`);
  - `d.get` (`Get`, `GetOr`);
  - `d.items()` (`Items`);
  - `for x in v` (`Iter`).
  
  Each one follows Python's behaviour for every kind of value. For `Descend`, a list or a string that does not contain the key is skipped like a dict without it. For both `Descend` and `Iter`, a number, `None` or a bool raises `TypeError`. `.get` and `.items()` on anything but a dict raise `AttributeError`.
- `PyText` (pytext.dfy): `str(v)` as the f-string of the delivery time uses it, and `float(s)` for a price given as a string.
- `Dish` (dish.dfy) holds `PizzaItem`, the dish type tag and `ExtractDish`. `ExtractDish` is the per-candidate `try` block (main.py:183-205). It returns `None` when that block raises, and the candidate is then dropped.
- `Traversal` (traversal.dfy) is the specification: `FilteredResults(raw) = Harvest(Candidates(raw))`.
  - `Candidates` is the loop nest, written with the loop combinator `Collect`. The first exception ends the loop.
  - `Harvest` keeps the items of the candidates that extract, in order.
- `Extractor` (extractor.dfy) is the scan as the source writes it. `SearchFiltered` runs three nested `while` loops that append to `filtered`. It is proved to return exactly `FilteredResults(raw)`, through loop invariants of the form "the answer is what has been built so far, resumed with the remaining work".
- `Scenarios` (scenarios.dfy) contains concrete responses. One is the one-Margherita response, which yields `Pizza Hub / Margherita / 299.0 / "35 mins"`.

In four places the model follows the code where the extractor's intended behaviour, "skip malformed entries, never abort", differs from it:

- The debug prints at main.py:175 and main.py:181 call `.get` outside the `try`. An inner card that is not a dict, or a dish whose `info` is not a dict, therefore raises `AttributeError` out of the whole call, and the route answers 500.
- A node of the wrong type on the descent path aborts the call the same way. The exception is a list or string that does not contain the key, which is skipped.
- A price that `float()` rejects drops the candidate. It is not defaulted to 0.
- A `sla` without `deliveryTime` gives `"Unknown mins"`, not `"Unknown"`.

## Model

| member | source | states |
|---|---|---|
| Extractor.SearchFiltered | main.py:134-212 | the nested loops return exactly `FilteredResults(raw)`: the items of the extracting dish candidates in card, group and group-card order, or the first exception raised outside the per-candidate `try` |
| Extractor.ScanGroupCard | main.py:167-205 | one iteration of the innermost loop: appends the card's item when it is a dish that extracts, leaves `filtered` unchanged when the card is skipped or dropped, and returns the escaping exception otherwise |
| Traversal.OnlyDishCardsAreCandidates | main.py:173-181 | an inner card is a candidate iff it is a dict whose `@type` equals the dish type exactly and whose `info` is a dict; any other dict contributes nothing; a non-dict inner card, or a dish whose `info` is not a dict, raises |
| Traversal.MissingDataOrCardsIsEmpty | main.py:134-143 | a response without `data`, or whose `data` has no `cards`, yields the empty list and no error |
| Traversal.CardWithoutGroupsIsSkipped | main.py:152-159 | a card without `groupedCard`, or whose grouped card has no `cardGroupMap`, is skipped and the other cards are still scanned |
| Traversal.GroupWithoutCardsIsSkipped | main.py:165 | a group without `cards` is skipped and the other groups are still scanned |
| Traversal.GroupCardWithoutDishIsSkipped | main.py:169-179 | a group card without `card`, without inner `card`, or whose inner card is not a dish with `info`, is skipped and its siblings are still scanned |
| Traversal.SkippedElementIsNeutral | main.py:147-166 | in every loop of the nest, an element whose body yields nothing can be removed without changing the result |
| Traversal.FirstFailingCardAborts | main.py:147-181 | an exception outside the `try` ends the whole call: the result is the first failing card's exception, whatever later cards hold |
| Traversal.CollectOkIff | main.py:147-166 | a loop of the nest completes iff the body completes on every element |
| Traversal.CollectFirstError | main.py:147-166 | a loop of the nest raises the exception of its first failing element |
| Traversal.CollectAppend | main.py:147-166 | looping over two concatenated lists is looping over the first, then the second |
| Traversal.ThenAssociative | main.py:147-166 | sequencing nested loop bodies does not depend on grouping, which is how the three loop levels compose |
| Traversal.NavigableNeverFails | main.py:136-181 | a response whose every node on the descent path is a dict (and every iterated node a list) never raises, whatever the dish fields hold |
| Traversal.NavigableCardNeverFails | main.py:152-166 | a well-shaped card never raises |
| Traversal.NavigableGroupNeverFails | main.py:165-181 | a well-shaped group never raises |
| Traversal.FilterMap | main.py:196 | the appended items are never more than the candidates |
| Traversal.FilterMapAppend | main.py:196 | appending per candidate distributes over concatenated candidate lists |
| Traversal.HarvestAppend | main.py:196 | the items of two candidate lists are the items of the first followed by those of the second |
| Traversal.FilterMapInOrder | main.py:183-205 | the m-th item comes from the m-th kept element, kept elements in increasing position, and every element that yields is kept |
| Traversal.HarvestInCandidateOrder | main.py:147-205 | exactly one item per candidate whose `try` completes, the m-th item from the m-th such candidate, in candidate order |
| Traversal.FilterMapDrop | main.py:203-205 | an element that yields nothing can be removed without changing the output |
| Traversal.DroppedCandidateIsNeutral | main.py:183-205 | a candidate whose `try` raises is dropped and every other candidate's item is still produced, in the same order |
| Traversal.ExtractBoundedByCandidates | main.py:147-212 | the call succeeds iff the scan does, and then the output length is the number of candidates that extract, never more than the number of dish candidates |
| Traversal.FilteredResults | main.py:134-212 | definition of what the route returns, `Harvest(Candidates(raw))`; specified by `Extractor.SearchFiltered`, `Traversal.ExtractBoundedByCandidates`, `Traversal.ItemsComeFromDishes` and the skip and abort lemmas |
| Traversal.Candidates | main.py:136-147 | definition of the dish candidates of a response in traversal order; specified by `Traversal.CandidatesAreDishes`, `Traversal.MissingDataOrCardsIsEmpty`, `Traversal.FirstFailingCardAborts` and `Traversal.NavigableNeverFails` |
| Traversal.CardCandidates | main.py:148-162 | definition of the candidates of one card; specified by `Traversal.CardCandidatesAreDishes`, `Traversal.CardWithoutGroupsIsSkipped` and `Traversal.NavigableCardNeverFails` |
| Traversal.GroupCandidates | main.py:163-166 | definition of the candidates of one group; specified by `Traversal.GroupCandidatesAreDishes`, `Traversal.GroupWithoutCardsIsSkipped` and `Traversal.NavigableGroupNeverFails` |
| Traversal.GroupCardCandidates | main.py:167-174 | definition of the candidates of one group card; specified by `Traversal.GroupCardCandidatesAreDishes`, `Traversal.GroupCardWithoutDishIsSkipped` and `Extractor.ScanGroupCard` |
| Traversal.InnerCandidates | main.py:173-181 | definition of the candidate test on an inner card; specified by `Traversal.OnlyDishCardsAreCandidates` and `Traversal.InnerCandidatesAreDishes` |
| Traversal.Harvest | main.py:196 | definition of the items appended for a list of candidates; specified by `Traversal.HarvestInCandidateOrder`, `Traversal.HarvestAppend` and `Traversal.DroppedCandidateIsNeutral` |
| Traversal.Collect | main.py:147-166 | definition of a `for` loop of the nest whose body yields a list or raises: the first exception ends the loop; specified by `Traversal.CollectOkIff`, `Traversal.CollectFirstError`, `Traversal.CollectAppend`, `Traversal.SkippedElementIsNeutral` and `Traversal.CollectAll` |
| Traversal.CollectAll | main.py:147-166 | when every body of a loop of the nest yields only values with a property, everything the loop yields has it |
| Traversal.InnerCandidatesAreDishes | main.py:178-180 | a candidate taken from an inner card carries the dish type and the inner card's dict `info` |
| Traversal.GroupCardCandidatesAreDishes | main.py:167-180 | every candidate of a group card is dish-tagged with a dict `info` |
| Traversal.GroupCandidatesAreDishes | main.py:163-180 | every candidate of a group is dish-tagged with a dict `info` |
| Traversal.CardCandidatesAreDishes | main.py:148-180 | every candidate of a card is dish-tagged with a dict `info` |
| Traversal.CandidatesAreDishes | main.py:136-180 | every candidate of a response is an inner card whose `@type` is the dish type and whose `info` is the dict it carries |
| Traversal.ItemsComeFromDishes | main.py:134-212 | every output item is the extraction of a dish-tagged card with a dict `info`: the m-th item comes from the m-th candidate that extracts |
| Dish.ExtractDish | main.py:183-205 | definition of the per-candidate `try` block; specified by `Dish.DroppedExactlyWhen`, `Dish.ExtractedFrom`, `Dish.ExtractedParts` and the price, name and delivery-time rules |
| Dish.RestaurantInfo | main.py:185-186 | definition of the `.get("restaurant", {}).get("info", {})` chain: `None` when `restaurant` is not a dict (the `.get` at line 185 raises) and also when `info` is present but not a dict (the source raises one line later, at the `.get("name", …)` of line 186, with the same outcome: the candidate is dropped); specified by `Dish.RestaurantNameRule` and `Dish.DroppedExactlyWhen` |
| Dish.DeliveryTime | main.py:192-194 | definition of the delivery-time text; specified by `Dish.DeliveryTimeRule` |
| PyJson.Descend | main.py:136-174 | definition of `key in v` followed by `v[key]`; specified by `PyJson.DescendMeaning` |
| PyJson.Iter | main.py:147 | definition of `for x in v`; specified by `PyJson.IterMeaning` |
| PyJson.GetOr | main.py:185-186 | definition of `d.get(key, default)` on top of `PyJson.Get`; its behaviour is stated by `Dish.RestaurantNameRule`, `Dish.ItemNameRule` and `Dish.PriceRule` |
| PyText.ParseInt | main.py:189 | `float()` of a string restricted to integer literals; a `-` literal gives a value at most 0 and any other a value at least 0; specified by `PyText.ParseIntOfDecimal` |
| PyText.Decimal | main.py:194 | definition of `str(n)` for an integer; specified by `PyText.ParseIntOfDecimal` |
| PyText.PyRepr | main.py:194 | definition of `repr(v)` for non-string values in the f-string; used by `PyText.PyStr` |
| Dish.PyFloat | main.py:189 | definition of `float(v)` on a JSON value; specified by `Dish.PriceRule`, `Dish.PriceFromDecimalString` and `Dish.UnconvertiblePriceDrops` |
| Dish.ExtractedParts | main.py:185-201 | an extracted item carries the delivery time computed from the restaurant info, and the restaurant info chain did not raise |
| Dish.ExtractedFrom | main.py:183-201 | a dish whose `restaurant.info` holds a string `name` and an `sla` with `deliveryTime` v, and whose `info` holds a string `name` and an integer `price` p, yields an item with exactly those names, price p / 100 and delivery time `str(v) + " mins"` |
| Dish.PriceRule | main.py:189 | the price is `info.price / 100`, and 0 when `info` has no `price` |
| Dish.PriceFromDecimalString | main.py:189 | a price written as the decimal string of p gives the same price as the integer p |
| Dish.UnconvertiblePriceDrops | main.py:189-205 | a price `float()` cannot convert drops the candidate rather than defaulting it |
| Dish.RestaurantNameRule | main.py:185-186 | the restaurant name is `restaurant.info.name`, or "Unknown" when `restaurant`, `info` or `name` is missing |
| Dish.ItemNameRule | main.py:198 | the item name is `info.name`, or "Unknown" when it is missing |
| Dish.DeliveryTimeRule | main.py:192-194 | no `sla` gives "Unknown"; `sla.deliveryTime = v` gives `str(v) + " mins"`; a `sla` without `deliveryTime` gives "Unknown mins" |
| Dish.DroppedExactlyWhen | main.py:183-205 | a candidate is dropped iff a `.get` meets a non-dict restaurant, restaurant info or `sla`, the price does not convert, or a name is present but not a string; a missing field never drops it |
| PyJson.Get | main.py:185-186 | `d.get(key)` is absent iff no member has that key, and otherwise is the value of a member with that key |
| PyJson.DescendMeaning | main.py:136-174 | `key in v` then `v[key]` yields a value iff v is a dict holding the key; it raises `TypeError` iff v is `None`, a bool or a number, a list containing the key, or a string containing it as a substring |
| PyJson.IsSubstring | main.py:136-173 | definition of `needle in hay` on two strings, as `key in node` evaluates it on a string node; specified by `PyJson.IsSubstringMeansOccurs` |
| Dish.PizzaItem | main.py:39-43 | the output record: restaurant name, item name, price and delivery time; its fields are stated by `Dish.ExtractedFrom` and the price, name and delivery-time rules |
| PyJson.IsSubstringMeansOccurs | main.py:136 | Python's `in` on strings, scanned from the left, holds iff the needle occurs at some offset |
| PyJson.IterMeaning | main.py:145-166 | `for x in v` agrees with `x in v` and `.items()`: iterating a dict yields the keys `.items()` lists, in order, and `key in v` then `v[key]` finds each of them; every character iterated from a string, and every string element of a list, is `in` it (so subscripting with it raises); iteration raises `TypeError` exactly on `None`, bools and numbers, where `key in v` raises too |
| PyJson.Items | main.py:162 | definition of `d.items()`, `AttributeError` on a non-dict; related to iteration over the dict's keys by `PyJson.IterMeaning` |
| PyText.DigitsValueOfDigits | main.py:194 | reading the digits `str()` writes for a natural number gives that number back |
| PyText.ParseIntOfDecimal | main.py:189-194 | parsing what `str(n)` writes gives n back |
| PyText.PyStr | main.py:194 | the f-string inserts a string unchanged, and an integer as a literal that reads back as that integer |
| Scenarios.ResponseCandidates | main.py:136-166 | a response with one card and one group yields the candidates of its group cards, in order |
| Scenarios.DishCardIsCandidate | main.py:169-181 | a well-formed group card is one candidate when its type is the dish type and nothing otherwise |
| Scenarios.DishCandidateExtracts | main.py:183-201 | a well-formed dish yields its restaurant name, item name, price / 100 and "<minutes> mins" |
| Scenarios.SingleDish | main.py:134-212 | a response holding one well-formed dish yields exactly that dish's item |
| Scenarios.MargheritaScenario | main.py:134-212 | the one-Margherita response yields exactly `Pizza Hub / Margherita / 299.0 / "35 mins"` |
| Scenarios.OtherTypeIsFilteredOut | main.py:178 | a card of another type between two dishes is filtered out: the two dishes' items, in input order |

## Left out

- The upstream fetch `search_pizza` (main.py:49-118) is not modelled. This covers the HTTP request, the random user agent, the clock-derived `queryId`, the status check and the JSON parsing. The extractor takes the parsed response as a parameter. The fetcher's own shape probes (main.py:102-111) can raise only on inputs where the extractor raises as well, and both end in the same 500.
- The FastAPI app, CORS middleware, routes and `uvicorn` start-up (main.py:9-23, 45-47, 219-221) are not modelled. They are framework plumbing.
- The `HTTPException` mapping is not modelled. Every escaping exception becomes `Err`, and the 500 with its message (main.py:214-217) is not represented.
- The debug `print` calls are not modelled, because they only produce output. There are three exceptions. The prints at main.py:175 and main.py:181 call `.get` outside the `try`, so they are modelled as the `AttributeError` they can raise. The print at main.py:145 evaluates `len(data['cards'])`, which raises `TypeError` when `cards` is `None`, a bool or a number. It needs no separate model: `for card in data["cards"]` at main.py:147 raises the same `TypeError` on exactly those values (`PyJson.IterMeaning`), and on every other value `len` succeeds.
- Floating point is not modelled. The price is the exact real `p / 100`, not a rounded double. An integer price too large for a double makes Python's `float()` raise `OverflowError` and drops the candidate; the model keeps such a candidate with its exact price.
- JSON numbers with a fraction or exponent are not modelled. The `Json` type has integers only.
- Duplicate object keys are not modelled. `Get` returns the first binding, and `json.loads` keeps the last.
- Dish.PyFloat: accepts only integers, bools and strings made of an optional sign and ASCII digits. Python's `float()` also accepts decimals, exponents, surrounding whitespace, underscores, `inf`/`nan` and non-ASCII digits. The model drops a candidate whose price is such a string, whereas the source keeps it. It also converts every integer, whereas Python raises `OverflowError` for an integer outside the double range.
- Dish.ExtractDish: the two name fields must be JSON strings, otherwise the candidate is dropped. Coercion of other values to `str` by the record validator is not modelled.
- PyText.PyRepr: quotes every string with single quotes and no escaping. Python switches to double quotes, and escapes, for strings that contain quotes or control characters. This matters only for a `deliveryTime` that is a list or a dict.
- PyText.PyStr: for an integer, the contract states only that the text reads back as that integer. Python's limit on the number of digits `str()` converts is not modelled.
