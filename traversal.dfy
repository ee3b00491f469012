/** The specification of the extractor in `search_pizza_filtered`
    (main.py:134-212): the dish candidates found by the descent
    data -> cards[] -> groupedCard -> cardGroupMap{} -> cards[] -> card -> card,
    in traversal order, and the items built from those that extract. */
module Traversal {
  import opened Results
  import opened PyJson
  import opened Dish

  /** Runs `a`, then `b` unless `a` raised, concatenating what they produced. */
  function Then<U>(a: Result<seq<U>>, b: Result<seq<U>>): Result<seq<U>>
  {
    if a.Err? then a else if b.Err? then b else Ok(a.value + b.value)
  }

  /** A `for` loop over `xs` whose body `f` yields a list or raises: the first
      exception ends the loop, otherwise the yields are concatenated in order. */
  function Collect<T, U>(xs: seq<T>, f: T -> Result<seq<U>>): Result<seq<U>>
  {
    if xs == [] then Ok([]) else Then(f(xs[0]), Collect(xs[1..], f))
  }

  /** Lines 173-181 for one inner card: an object whose `@type` is DishType and
      which has `info` is a candidate. `inner_card.get` (175) and `info.get` (181)
      run outside the `try`, so a non-dict inner card or info raises out of the
      whole call. */
  function InnerCandidates(inner: Json): Result<seq<Candidate>>
  {
    if !inner.JObj? then Err(AttributeError)
    else if Get(inner.members, "@type") != Some(JStr(DishType)) then Ok([])
    else match Get(inner.members, "info")
      case None => Ok([])
      case Some(info) =>
        if info.JObj? then Ok([Candidate(inner.members, info.members)]) else Err(AttributeError)
  }

  /** Lines 167-174 for one element of a group's `cards`. */
  function GroupCardCandidates(groupCard: Json): Result<seq<Candidate>>
  {
    var cardData :- Descend(groupCard, "card");
    if cardData.None? then Ok([])
    else
      var inner :- Descend(cardData.value, "card");
      if inner.None? then Ok([]) else InnerCandidates(inner.value)
  }

  /** Lines 163-166 for one `(group_key, group_data)` of `cardGroupMap.items()`. */
  function GroupCandidates(group: (string, Json)): Result<seq<Candidate>>
  {
    var cards :- Descend(group.1, "cards");
    if cards.None? then Ok([])
    else
      var groupCards :- Iter(cards.value);
      Collect(groupCards, GroupCardCandidates)
  }

  /** Lines 148-162 for one element of `data["cards"]`. */
  function CardCandidates(card: Json): Result<seq<Candidate>>
  {
    var grouped :- Descend(card, "groupedCard");
    if grouped.None? then Ok([])
    else
      var groupMap :- Descend(grouped.value, "cardGroupMap");
      if groupMap.None? then Ok([])
      else
        var groups :- Items(groupMap.value);
        Collect(groups, GroupCandidates)
  }

  /** Lines 136-147: every dish candidate of the response, in traversal order. */
  function Candidates(raw: Json): Result<seq<Candidate>>
  {
    var data :- Descend(raw, "data");
    if data.None? then Ok([])
    else
      var cards :- Descend(data.value, "cards");
      if cards.None? then Ok([])
      else
        var cardList :- Iter(cards.value);
        Collect(cardList, CardCandidates)
  }

  /** The values `f` produces on `xs`, in order, skipping the elements where it yields nothing. */
  function FilterMap<T, U>(xs: seq<T>, f: T -> Option<U>): (ys: seq<U>)
    ensures |ys| <= |xs|
  {
    if xs == [] then []
    else (match f(xs[0]) case Some(y) => [y] case None => []) + FilterMap(xs[1..], f)
  }

  /** The items appended for a list of candidates: one per candidate whose
      `try` block completes, in candidate order. */
  function Harvest(cs: seq<Candidate>): seq<PizzaItem>
  {
    FilterMap(cs, ExtractDish)
  }

  /** What `search_pizza_filtered` returns for the upstream response `raw`:
      the list `filtered_results`, or the exception that escapes the scan. */
  function FilteredResults(raw: Json): Result<seq<PizzaItem>>
  {
    var cs :- Candidates(raw);
    Ok(Harvest(cs))
  }

  /** The answer of a scan that has built `filtered` so far and still has the
      candidates `rest` to look at. */
  function Resume(filtered: seq<PizzaItem>, rest: Result<seq<Candidate>>): Result<seq<PizzaItem>>
  {
    if rest.Err? then Err(rest.error) else Ok(filtered + Harvest(rest.value))
  }

  // ---------------------------------------------------------------------------
  // Which cards are candidates

  /** An inner card is a candidate exactly when it is an object whose `@type` is
      DishType and whose `info` is an object; any other inner card contributes
      nothing, whatever its fields, unless it is not a dict or has a non-dict
      `info` (then the whole call raises). */
  lemma OnlyDishCardsAreCandidates(inner: Json)
    ensures InnerCandidates(inner).Ok? && InnerCandidates(inner).value != [] <==>
      && inner.JObj?
      && Get(inner.members, "@type") == Some(JStr(DishType))
      && Get(inner.members, "info").Some? && Get(inner.members, "info").value.JObj?
    ensures InnerCandidates(inner).Ok? && InnerCandidates(inner).value != [] ==>
      InnerCandidates(inner).value == [Candidate(inner.members, Get(inner.members, "info").value.members)]
    ensures inner.JObj? && Get(inner.members, "@type") != Some(JStr(DishType)) ==>
      InnerCandidates(inner) == Ok([])
    ensures inner.JObj? && Get(inner.members, "info") == None ==> InnerCandidates(inner) == Ok([])
    ensures InnerCandidates(inner).Err? <==>
      || !inner.JObj?
      || (Get(inner.members, "@type") == Some(JStr(DishType)) &&
          Get(inner.members, "info").Some? && !Get(inner.members, "info").value.JObj?)
  {
  }

  // ---------------------------------------------------------------------------
  // Properties of the loop combinator and of Harvest

  lemma {:induction false} ThenAssociative<U>(a: Result<seq<U>>, b: Result<seq<U>>, c: Result<seq<U>>)
    ensures Then(Then(a, b), c) == Then(a, Then(b, c))
  {
    if a.Ok? && b.Ok? && c.Ok? {
      assert (a.value + b.value) + c.value == a.value + (b.value + c.value);
    }
  }

  /** Looping over `xs + ys` is looping over `xs`, then over `ys`. */
  lemma {:induction false} CollectAppend<T, U>(xs: seq<T>, ys: seq<T>, f: T -> Result<seq<U>>)
    ensures Collect(xs + ys, f) == Then(Collect(xs, f), Collect(ys, f))
    decreases |xs|
  {
    if xs == [] {
      assert xs + ys == ys;
      assert Collect(ys, f).Ok? ==> [] + Collect(ys, f).value == Collect(ys, f).value;
    } else {
      assert (xs + ys)[1..] == xs[1..] + ys;
      CollectAppend(xs[1..], ys, f);
      ThenAssociative(f(xs[0]), Collect(xs[1..], f), Collect(ys, f));
    }
  }

  /** The loop completes exactly when every body completes. */
  lemma {:induction false} CollectOkIff<T, U>(xs: seq<T>, f: T -> Result<seq<U>>)
    ensures Collect(xs, f).Ok? <==> forall k :: 0 <= k < |xs| ==> f(xs[k]).Ok?
    decreases |xs|
  {
    if xs != [] {
      CollectOkIff(xs[1..], f);
      assert forall k :: 1 <= k < |xs| ==> xs[k] == xs[1..][k - 1];
    }
  }

  /** The first body that raises decides the loop's exception. */
  lemma {:induction false} CollectFirstError<T, U>(xs: seq<T>, f: T -> Result<seq<U>>, k: nat)
    requires k < |xs|
    requires forall j :: 0 <= j < k ==> f(xs[j]).Ok?
    requires f(xs[k]).Err?
    ensures Collect(xs, f) == Err(f(xs[k]).error)
    decreases k
  {
    if k > 0 {
      assert forall j :: 0 <= j < k - 1 ==> xs[1..][j] == xs[j + 1];
      CollectFirstError(xs[1..], f, k - 1);
    }
  }

  /** An element whose body yields nothing and raises nothing can be removed
      without changing the loop's outcome: its siblings are unaffected. */
  lemma SkippedElementIsNeutral<T, U>(xs: seq<T>, f: T -> Result<seq<U>>, k: nat)
    requires k < |xs|
    requires f(xs[k]) == Ok([])
    ensures Collect(xs, f) == Collect(xs[..k] + xs[k + 1..], f)
  {
    var rest := xs[k + 1..];
    assert xs == xs[..k] + ([xs[k]] + rest);
    CollectAppend(xs[..k], [xs[k]] + rest, f);
    assert ([xs[k]] + rest)[1..] == rest;
    var tail := Collect(rest, f);
    assert tail.Ok? ==> [] + tail.value == tail.value;
    assert Collect([xs[k]] + rest, f) == tail;
    CollectAppend(xs[..k], rest, f);
  }

  lemma {:induction false} FilterMapAppend<T, U>(a: seq<T>, b: seq<T>, f: T -> Option<U>)
    ensures FilterMap(a + b, f) == FilterMap(a, f) + FilterMap(b, f)
    decreases |a|
  {
    if a == [] {
      assert a + b == b;
    } else {
      assert (a + b)[0] == a[0] && (a + b)[1..] == a[1..] + b;
      FilterMapAppend(a[1..], b, f);
    }
  }

  lemma HarvestAppend(a: seq<Candidate>, b: seq<Candidate>)
    ensures Harvest(a + b) == Harvest(a) + Harvest(b)
  {
    FilterMapAppend(a, b, ExtractDish);
  }

  lemma ResumeThen(filtered: seq<PizzaItem>, cs: seq<Candidate>, rest: Result<seq<Candidate>>)
    ensures Resume(filtered, Then(Ok(cs), rest)) == Resume(filtered + Harvest(cs), rest)
  {
    if rest.Ok? {
      HarvestAppend(cs, rest.value);
      assert filtered + (Harvest(cs) + Harvest(rest.value)) == (filtered + Harvest(cs)) + Harvest(rest.value);
    }
  }

  lemma ResumeNothing(filtered: seq<PizzaItem>, rest: Result<seq<Candidate>>)
    ensures Resume(filtered, Then(Ok([]), rest)) == Resume(filtered, rest)
  {
    if rest.Ok? {
      assert [] + rest.value == rest.value;
    }
  }

  // ---------------------------------------------------------------------------
  // One item per extracted candidate, in candidate order

  /** The positions of the elements of `xs` where `f` yields a value, in increasing order. */
  function Kept<T, U>(xs: seq<T>, f: T -> Option<U>): seq<nat>
    decreases |xs|
  {
    if xs == [] then []
    else
      var n := |xs| - 1;
      Kept(xs[..n], f) + (if f(xs[n]).Some? then [n] else [])
  }

  lemma {:induction false} FilterMapInOrder<T, U>(xs: seq<T>, f: T -> Option<U>)
    ensures |FilterMap(xs, f)| == |Kept(xs, f)|
    ensures forall m :: 0 <= m < |Kept(xs, f)| ==>
      Kept(xs, f)[m] < |xs| && f(xs[Kept(xs, f)[m]]) == Some(FilterMap(xs, f)[m])
    ensures forall m, m' :: 0 <= m < m' < |Kept(xs, f)| ==> Kept(xs, f)[m] < Kept(xs, f)[m']
    ensures forall k :: 0 <= k < |xs| && f(xs[k]).Some? ==> k in Kept(xs, f)
    decreases |xs|
  {
    if xs != [] {
      var n := |xs| - 1;
      var init := xs[..n];
      FilterMapInOrder(init, f);
      assert FilterMap(xs, f) == FilterMap(init, f) + FilterMap([xs[n]], f) by {
        assert xs == init + [xs[n]];
        FilterMapAppend(init, [xs[n]], f);
      }
      assert FilterMap([xs[n]], f) == if f(xs[n]).Some? then [f(xs[n]).value] else [] by {
        assert [xs[n]][1..] == [];
      }
      assert forall k :: 0 <= k < n ==> xs[k] == init[k];
    }
  }

  /** The positions of the candidates whose `try` block completes. */
  function Succeeded(cs: seq<Candidate>): seq<nat>
  {
    Kept(cs, ExtractDish)
  }

  /** Harvest yields exactly one item per candidate that extracts, and the m-th
      item comes from the m-th such candidate: output order is candidate order. */
  lemma HarvestInCandidateOrder(cs: seq<Candidate>)
    ensures |Harvest(cs)| == |Succeeded(cs)| <= |cs|
    ensures forall m :: 0 <= m < |Succeeded(cs)| ==>
      Succeeded(cs)[m] < |cs| && ExtractDish(cs[Succeeded(cs)[m]]) == Some(Harvest(cs)[m])
    ensures forall m, m' :: 0 <= m < m' < |Succeeded(cs)| ==> Succeeded(cs)[m] < Succeeded(cs)[m']
    ensures forall k :: 0 <= k < |cs| && ExtractDish(cs[k]).Some? ==> k in Succeeded(cs)
  {
    FilterMapInOrder(cs, ExtractDish);
  }

  lemma FilterMapDrop<T, U>(xs: seq<T>, f: T -> Option<U>, k: nat)
    requires k < |xs|
    requires f(xs[k]).None?
    ensures FilterMap(xs, f) == FilterMap(xs[..k] + xs[k + 1..], f)
  {
    var rest := xs[k + 1..];
    var here := [xs[k]] + rest;
    assert xs == xs[..k] + here;
    FilterMapAppend(xs[..k], here, f);
    assert FilterMap(here, f) == FilterMap(rest, f) by {
      assert here[0] == xs[k] && here[1..] == rest;
    }
    FilterMapAppend(xs[..k], rest, f);
  }

  /** A candidate whose `try` block raises is dropped and nothing else changes:
      the items of all other candidates are still produced, in the same order. */
  lemma DroppedCandidateIsNeutral(cs: seq<Candidate>, k: nat)
    requires k < |cs|
    requires ExtractDish(cs[k]).None?
    ensures Harvest(cs) == Harvest(cs[..k] + cs[k + 1..])
  {
    FilterMapDrop(cs, ExtractDish, k);
  }

  /** The output never has more items than the response has dish candidates. */
  lemma ExtractBoundedByCandidates(raw: Json)
    ensures FilteredResults(raw).Ok? <==> Candidates(raw).Ok?
    ensures FilteredResults(raw).Ok? ==> |FilteredResults(raw).value| <= |Candidates(raw).value|
    ensures FilteredResults(raw).Ok? ==> |FilteredResults(raw).value| == |Succeeded(Candidates(raw).value)|
  {
    if Candidates(raw).Ok? {
      HarvestInCandidateOrder(Candidates(raw).value);
    }
  }

  // ---------------------------------------------------------------------------
  // Every item comes from a dish-tagged card

  /** A candidate as the scan finds it: the inner card is tagged with DishType
      and its `info` is the dict the candidate carries. */
  predicate IsDish(c: Candidate)
  {
    Get(c.card, "@type") == Some(JStr(DishType)) && Get(c.card, "info") == Some(JObj(c.info))
  }

  /** When every body of a loop yields only values with property P, so does the loop. */
  lemma {:induction false} CollectAll<T, U>(xs: seq<T>, f: T -> Result<seq<U>>, P: U -> bool)
    requires forall x :: x in xs && f(x).Ok? ==> forall y :: y in f(x).value ==> P(y)
    ensures Collect(xs, f).Ok? ==> forall y :: y in Collect(xs, f).value ==> P(y)
    decreases |xs|
  {
    if xs != [] {
      assert xs[0] in xs;
      forall x | x in xs[1..] ensures x in xs {
      }
      CollectAll(xs[1..], f, P);
    }
  }

  lemma InnerCandidatesAreDishes(inner: Json)
    ensures InnerCandidates(inner).Ok? ==> forall c :: c in InnerCandidates(inner).value ==> IsDish(c)
  {
  }

  lemma GroupCardCandidatesAreDishes(groupCard: Json)
    ensures GroupCardCandidates(groupCard).Ok? ==>
      forall c :: c in GroupCardCandidates(groupCard).value ==> IsDish(c)
  {
    var cardData := Descend(groupCard, "card");
    if cardData.Ok? && cardData.value.Some? {
      var inner := Descend(cardData.value.value, "card");
      if inner.Ok? && inner.value.Some? {
        InnerCandidatesAreDishes(inner.value.value);
      }
    }
  }

  lemma GroupCandidatesAreDishes(group: (string, Json))
    ensures GroupCandidates(group).Ok? ==> forall c :: c in GroupCandidates(group).value ==> IsDish(c)
  {
    var cards := Descend(group.1, "cards");
    if cards.Ok? && cards.value.Some? {
      var groupCards := Iter(cards.value.value);
      if groupCards.Ok? {
        forall gc | gc in groupCards.value
          ensures GroupCardCandidates(gc).Ok? ==> forall c :: c in GroupCardCandidates(gc).value ==> IsDish(c)
        {
          GroupCardCandidatesAreDishes(gc);
        }
        CollectAll(groupCards.value, GroupCardCandidates, IsDish);
      }
    }
  }

  lemma CardCandidatesAreDishes(card: Json)
    ensures CardCandidates(card).Ok? ==> forall c :: c in CardCandidates(card).value ==> IsDish(c)
  {
    var grouped := Descend(card, "groupedCard");
    if grouped.Ok? && grouped.value.Some? {
      var groupMap := Descend(grouped.value.value, "cardGroupMap");
      if groupMap.Ok? && groupMap.value.Some? {
        var groups := Items(groupMap.value.value);
        if groups.Ok? {
          forall g | g in groups.value
            ensures GroupCandidates(g).Ok? ==> forall c :: c in GroupCandidates(g).value ==> IsDish(c)
          {
            GroupCandidatesAreDishes(g);
          }
          CollectAll(groups.value, GroupCandidates, IsDish);
        }
      }
    }
  }

  /** Every candidate of a response is an inner card tagged DishType with a dict `info`. */
  lemma CandidatesAreDishes(raw: Json)
    ensures Candidates(raw).Ok? ==> forall c :: c in Candidates(raw).value ==> IsDish(c)
  {
    var data := Descend(raw, "data");
    if data.Ok? && data.value.Some? {
      var cards := Descend(data.value.value, "cards");
      if cards.Ok? && cards.value.Some? {
        var cardList := Iter(cards.value.value);
        if cardList.Ok? {
          forall card | card in cardList.value
            ensures CardCandidates(card).Ok? ==> forall c :: c in CardCandidates(card).value ==> IsDish(c)
          {
            CardCandidatesAreDishes(card);
          }
          CollectAll(cardList.value, CardCandidates, IsDish);
        }
      }
    }
  }

  /** Every output item is the extraction of a dish-tagged candidate:
      the m-th item comes from the m-th candidate that extracts, and that
      candidate carries the dish type and a dict `info`. */
  lemma ItemsComeFromDishes(raw: Json)
    ensures FilteredResults(raw).Ok? ==>
      var cs := Candidates(raw).value;
      && |FilteredResults(raw).value| == |Succeeded(cs)|
      && forall m :: 0 <= m < |Succeeded(cs)| ==>
           && Succeeded(cs)[m] < |cs|
           && IsDish(cs[Succeeded(cs)[m]])
           && ExtractDish(cs[Succeeded(cs)[m]]) == Some(FilteredResults(raw).value[m])
  {
    if FilteredResults(raw).Ok? {
      var cs := Candidates(raw).value;
      CandidatesAreDishes(raw);
      HarvestInCandidateOrder(cs);
      forall m | 0 <= m < |Succeeded(cs)|
        ensures IsDish(cs[Succeeded(cs)[m]])
      {
        assert cs[Succeeded(cs)[m]] in cs;
      }
    }
  }

  // ---------------------------------------------------------------------------
  // Missing keys skip a branch; failures outside the `try` abort the call

  /** A response without `data`, or whose `data` has no `cards`, yields the empty list. */
  lemma MissingDataOrCardsIsEmpty(raw: Json)
    requires raw.JObj?
    requires || Get(raw.members, "data") == None
             || (Get(raw.members, "data").Some? && Get(raw.members, "data").value.JObj? &&
                 Get(Get(raw.members, "data").value.members, "cards") == None)
    ensures FilteredResults(raw) == Ok([])
  {
  }

  /** A card without `groupedCard`, or whose grouped card has no `cardGroupMap`,
      is skipped: the result is what it would be without that card. */
  lemma CardWithoutGroupsIsSkipped(cards: seq<Json>, k: nat)
    requires k < |cards| && cards[k].JObj?
    requires || Get(cards[k].members, "groupedCard") == None
             || (Get(cards[k].members, "groupedCard").Some? &&
                 Get(cards[k].members, "groupedCard").value.JObj? &&
                 Get(Get(cards[k].members, "groupedCard").value.members, "cardGroupMap") == None)
    ensures Collect(cards, CardCandidates) == Collect(cards[..k] + cards[k + 1..], CardCandidates)
  {
    SkippedElementIsNeutral(cards, CardCandidates, k);
  }

  /** A group without `cards` is skipped: the other groups are still scanned. */
  lemma GroupWithoutCardsIsSkipped(groups: seq<(string, Json)>, k: nat)
    requires k < |groups| && groups[k].1.JObj?
    requires Get(groups[k].1.members, "cards") == None
    ensures Collect(groups, GroupCandidates) == Collect(groups[..k] + groups[k + 1..], GroupCandidates)
  {
    SkippedElementIsNeutral(groups, GroupCandidates, k);
  }

  /** A group card without `card`, or whose `card` has no inner `card`, or whose
      inner card is an object that is not a dish with `info`, is skipped. */
  lemma GroupCardWithoutDishIsSkipped(groupCards: seq<Json>, k: nat)
    requires k < |groupCards| && groupCards[k].JObj?
    requires
      var cardData := Get(groupCards[k].members, "card");
      || cardData == None
      || (cardData.Some? && cardData.value.JObj? && Get(cardData.value.members, "card") == None)
      || (cardData.Some? && cardData.value.JObj? && Get(cardData.value.members, "card").Some? &&
          var inner := Get(cardData.value.members, "card").value;
          inner.JObj? &&
          (Get(inner.members, "@type") != Some(JStr(DishType)) || Get(inner.members, "info") == None))
    ensures Collect(groupCards, GroupCardCandidates) ==
            Collect(groupCards[..k] + groupCards[k + 1..], GroupCardCandidates)
  {
    SkippedElementIsNeutral(groupCards, GroupCardCandidates, k);
  }

  /** An exception outside the per-candidate `try` ends the whole scan: when the
      first failing card of `data["cards"]` is at index k, the call fails with
      that card's exception, whatever the cards after it hold. */
  lemma FirstFailingCardAborts(raw: Json, cards: seq<Json>, k: nat)
    requires raw.JObj? && Get(raw.members, "data").Some?
    requires Get(raw.members, "data").value.JObj?
    requires Get(Get(raw.members, "data").value.members, "cards") == Some(JArr(cards))
    requires k < |cards|
    requires forall j :: 0 <= j < k ==> CardCandidates(cards[j]).Ok?
    requires CardCandidates(cards[k]).Err?
    ensures FilteredResults(raw) == Err(CardCandidates(cards[k]).error)
  {
    CollectFirstError(cards, CardCandidates, k);
  }

  // ---------------------------------------------------------------------------
  // Responses in the expected shape never fail

  predicate NavigableInner(inner: Json)
  {
    && inner.JObj?
    && (Get(inner.members, "@type") == Some(JStr(DishType)) && Get(inner.members, "info").Some? ==>
          Get(inner.members, "info").value.JObj?)
  }

  predicate NavigableGroupCard(groupCard: Json)
  {
    && groupCard.JObj?
    && match Get(groupCard.members, "card")
       case None => true
       case Some(cardData) =>
         && cardData.JObj?
         && match Get(cardData.members, "card")
            case None => true
            case Some(inner) => NavigableInner(inner)
  }

  predicate NavigableGroup(group: (string, Json))
  {
    && group.1.JObj?
    && match Get(group.1.members, "cards")
       case None => true
       case Some(cards) =>
         cards.JArr? && forall k :: 0 <= k < |cards.items| ==> NavigableGroupCard(cards.items[k])
  }

  predicate NavigableCard(card: Json)
  {
    && card.JObj?
    && match Get(card.members, "groupedCard")
       case None => true
       case Some(grouped) =>
         && grouped.JObj?
         && match Get(grouped.members, "cardGroupMap")
            case None => true
            case Some(groupMap) =>
              groupMap.JObj? && forall k :: 0 <= k < |groupMap.members| ==> NavigableGroup(groupMap.members[k])
  }

  /** Every node on the descent path is a dict, and every list iterated is a list. */
  predicate Navigable(raw: Json)
  {
    && raw.JObj?
    && match Get(raw.members, "data")
       case None => true
       case Some(data) =>
         && data.JObj?
         && match Get(data.members, "cards")
            case None => true
            case Some(cards) =>
              cards.JArr? && forall k :: 0 <= k < |cards.items| ==> NavigableCard(cards.items[k])
  }

  /** On a response in the expected shape the extractor never raises: malformed
      dish fields only drop their candidate. */
  lemma NavigableNeverFails(raw: Json)
    requires Navigable(raw)
    ensures FilteredResults(raw).Ok?
  {
    var data := Get(raw.members, "data");
    if data.Some? {
      var cards := Get(data.value.members, "cards");
      if cards.Some? {
        var cardList := cards.value.items;
        forall k | 0 <= k < |cardList|
          ensures CardCandidates(cardList[k]).Ok?
        {
          NavigableCardNeverFails(cardList[k]);
        }
        CollectOkIff(cardList, CardCandidates);
      }
    }
  }

  lemma NavigableCardNeverFails(card: Json)
    requires NavigableCard(card)
    ensures CardCandidates(card).Ok?
  {
    var grouped := Get(card.members, "groupedCard");
    if grouped.Some? {
      var groupMap := Get(grouped.value.members, "cardGroupMap");
      if groupMap.Some? {
        var groups := groupMap.value.members;
        forall k | 0 <= k < |groups|
          ensures GroupCandidates(groups[k]).Ok?
        {
          NavigableGroupNeverFails(groups[k]);
        }
        CollectOkIff(groups, GroupCandidates);
      }
    }
  }

  lemma NavigableGroupNeverFails(group: (string, Json))
    requires NavigableGroup(group)
    ensures GroupCandidates(group).Ok?
  {
    var cards := Get(group.1.members, "cards");
    if cards.Some? {
      var groupCards := cards.value.items;
      forall k | 0 <= k < |groupCards|
        ensures GroupCardCandidates(groupCards[k]).Ok?
      {
        assert NavigableGroupCard(groupCards[k]);
      }
      CollectOkIff(groupCards, GroupCardCandidates);
    }
  }
}
