/** The scan of `search_pizza_filtered` (main.py:134-212) as the source runs it:
    three nested loops that append to `filtered_results` and stop at the first
    exception raised outside the per-candidate `try`. */
module Extractor {
  import opened Results
  import opened PyJson
  import opened Dish
  import opened Traversal

  method SearchFiltered(raw: Json) returns (r: Result<seq<PizzaItem>>)
    ensures r == FilteredResults(raw)
  {
    var filtered: seq<PizzaItem> := [];
    var data := Descend(raw, "data");
    if data.Err? { return Err(data.error); }
    if data.value.None? { return Ok(filtered); }
    var cardsNode := Descend(data.value.value, "cards");
    if cardsNode.Err? { return Err(cardsNode.error); }
    if cardsNode.value.None? { return Ok(filtered); }
    var cardsIter := Iter(cardsNode.value.value);
    if cardsIter.Err? { return Err(cardsIter.error); }
    var cards := cardsIter.value;
    assert FilteredResults(raw) == Resume([], Collect(cards[0..], CardCandidates)) by {
      assert cards[0..] == cards;
      assert Candidates(raw) == Collect(cards, CardCandidates);
      assert Candidates(raw).Ok? ==> [] + Harvest(Candidates(raw).value) == Harvest(Candidates(raw).value);
    }

    var i := 0;
    while i < |cards|
      invariant 0 <= i <= |cards|
      invariant FilteredResults(raw) == Resume(filtered, Collect(cards[i..], CardCandidates))
    {
      // the rest of the scan once this card is done
      ghost var laterCards := Collect(cards[i + 1..], CardCandidates);
      ghost var here := CardCandidates(cards[i]);
      assert FilteredResults(raw) == Resume(filtered, Then(here, laterCards)) by {
        assert cards[i..][1..] == cards[i + 1..];
      }
      var grouped := Descend(cards[i], "groupedCard");
      if grouped.Err? { return Err(grouped.error); }
      if grouped.value.None? {
        ResumeNothing(filtered, laterCards);
      } else {
        var groupMap := Descend(grouped.value.value, "cardGroupMap");
        if groupMap.Err? { return Err(groupMap.error); }
        if groupMap.value.None? {
          ResumeNothing(filtered, laterCards);
        } else {
          var groupsIter := Items(groupMap.value.value);
          if groupsIter.Err? { return Err(groupsIter.error); }
          var groups := groupsIter.value;
          assert here == Collect(groups[0..], GroupCandidates) by {
            assert groups[0..] == groups;
          }

          var j := 0;
          while j < |groups|
            invariant 0 <= j <= |groups|
            invariant FilteredResults(raw) == Resume(filtered, Then(Collect(groups[j..], GroupCandidates), laterCards))
          {
            ghost var laterGroups := Then(Collect(groups[j + 1..], GroupCandidates), laterCards);
            ghost var inGroup := GroupCandidates(groups[j]);
            assert FilteredResults(raw) == Resume(filtered, Then(inGroup, laterGroups)) by {
              assert groups[j..][1..] == groups[j + 1..];
              ThenAssociative(inGroup, Collect(groups[j + 1..], GroupCandidates), laterCards);
            }
            var groupCardsNode := Descend(groups[j].1, "cards");
            if groupCardsNode.Err? { return Err(groupCardsNode.error); }
            if groupCardsNode.value.None? {
              ResumeNothing(filtered, laterGroups);
            } else {
              var groupCardsIter := Iter(groupCardsNode.value.value);
              if groupCardsIter.Err? { return Err(groupCardsIter.error); }
              var groupCards := groupCardsIter.value;
              assert inGroup == Collect(groupCards[0..], GroupCardCandidates) by {
                assert groupCards[0..] == groupCards;
              }

              var k := 0;
              while k < |groupCards|
                invariant 0 <= k <= |groupCards|
                invariant FilteredResults(raw) == Resume(filtered, Then(Collect(groupCards[k..], GroupCardCandidates), laterGroups))
              {
                ghost var before := filtered;
                ghost var laterGroupCards := Then(Collect(groupCards[k + 1..], GroupCardCandidates), laterGroups);
                ghost var found := GroupCardCandidates(groupCards[k]);
                assert FilteredResults(raw) == Resume(filtered, Then(found, laterGroupCards)) by {
                  assert groupCards[k..][1..] == groupCards[k + 1..];
                  ThenAssociative(found, Collect(groupCards[k + 1..], GroupCardCandidates), laterGroups);
                }
                var next := ScanGroupCard(groupCards[k], filtered);
                if next.Err? { return next; }
                filtered := next.value;
                assert found.Ok? && filtered == before + Harvest(found.value);
                ResumeThen(before, found.value, laterGroupCards);
                assert FilteredResults(raw) == Resume(filtered, Then(Collect(groupCards[k + 1..], GroupCardCandidates), laterGroups));
                k := k + 1;
              }
              assert groupCards[k..] == [];
              ResumeNothing(filtered, laterGroups);
            }
            j := j + 1;
          }
          assert groups[j..] == [];
          ResumeNothing(filtered, laterCards);
        }
      }
      i := i + 1;
    }
    assert cards[i..] == [];
    assert filtered + [] == filtered;
    return Ok(filtered);
  }

  /** The body of the innermost loop (main.py:167-205) for one group card:
      `filtered` with the card's item appended when it is a dish whose `try`
      block completes, `filtered` unchanged when it is skipped, or the
      exception that escapes the scan. */
  method ScanGroupCard(groupCard: Json, filtered: seq<PizzaItem>) returns (r: Result<seq<PizzaItem>>)
    ensures r == Resume(filtered, GroupCardCandidates(groupCard))
  {
    assert filtered + Harvest([]) == filtered;
    var cardData := Descend(groupCard, "card");
    if cardData.Err? { return Err(cardData.error); }
    if cardData.value.None? { return Ok(filtered); }
    var innerNode := Descend(cardData.value.value, "card");
    if innerNode.Err? { return Err(innerNode.error); }
    if innerNode.value.None? { return Ok(filtered); }
    var inner := innerNode.value.value;
    // `inner_card.get('@type', ...)` in the debug print of line 175
    if !inner.JObj? { return Err(AttributeError); }
    if Get(inner.members, "@type") != Some(JStr(DishType)) { return Ok(filtered); }
    var info := Get(inner.members, "info");
    if info.None? { return Ok(filtered); }
    // `info.get('name', ...)` in the debug print of line 181
    if !info.value.JObj? { return Err(AttributeError); }
    var candidate := Candidate(inner.members, info.value.members);
    assert GroupCardCandidates(groupCard) == Ok([candidate]);
    var item := ExtractDish(candidate);
    assert Harvest([candidate]) == if item.Some? then [item.value] else [] by {
      assert [candidate][1..] == [];
    }
    if item.Some? {
      return Ok(filtered + [item.value]);
    }
    return Ok(filtered);
  }
}
