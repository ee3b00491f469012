/** Concrete responses and what the extractor returns for them. */
module Scenarios {
  import opened Results
  import opened PyJson
  import opened Dish
  import opened Traversal
  import PyText

  /** A search-results response holding the given group cards in one group "g1". */
  function Response(groupCards: seq<Json>): Json
  {
    JObj([("data", JObj([("cards", JArr([
      JObj([("groupedCard", JObj([("cardGroupMap", JObj([
        ("g1", JObj([("cards", JArr(groupCards))]))]))]))])]))]))])
  }

  /** A group card wrapping an inner card with the given `@type`, dish name,
      price, restaurant name and delivery time. */
  function DishCard(tag: string, name: string, price: int, restaurant: string, minutes: int): Json
  {
    JObj([("card", JObj([("card", JObj([
      ("@type", JStr(tag)),
      ("info", JObj([("name", JStr(name)), ("price", JInt(price))])),
      ("restaurant", JObj([("info", JObj([
        ("name", JStr(restaurant)),
        ("sla", JObj([("deliveryTime", JInt(minutes))]))]))]))]))]))])
  }

  /** The candidate a DishCard carries. */
  function DishCandidate(tag: string, name: string, price: int, restaurant: string, minutes: int): Candidate
  {
    var inner := DishCard(tag, name, price, restaurant, minutes).members[0].1.members[0].1;
    Candidate(inner.members, inner.members[1].1.members)
  }

  lemma ResponseCandidates(groupCards: seq<Json>)
    ensures Candidates(Response(groupCards)) == Collect(groupCards, GroupCardCandidates)
  {
    var groups := [("g1", JObj([("cards", JArr(groupCards))]))];
    var card := JObj([("groupedCard", JObj([("cardGroupMap", JObj(groups))]))]);
    var data := JObj([("cards", JArr([card]))]);
    assert Response(groupCards) == JObj([("data", data)]);
    assert Descend(Response(groupCards), "data") == Ok(Some(data));
    assert Descend(data, "cards") == Ok(Some(JArr([card])));
    assert Candidates(Response(groupCards)) == Collect([card], CardCandidates);
    assert Descend(card, "groupedCard") == Ok(Some(card.members[0].1));
    assert Descend(card.members[0].1, "cardGroupMap") == Ok(Some(JObj(groups)));
    assert Descend(groups[0].1, "cards") == Ok(Some(JArr(groupCards)));
    assert GroupCandidates(groups[0]) == Collect(groupCards, GroupCardCandidates);
    assert CardCandidates(card) == Collect(groups, GroupCandidates);
    assert Collect(groups, GroupCandidates) == GroupCandidates(groups[0]) by {
      assert Collect(groups, GroupCandidates) == Then(GroupCandidates(groups[0]), Collect(groups[1..], GroupCandidates));
      assert groups[1..] == [];
      var r := Collect(groupCards, GroupCardCandidates);
      assert r.Ok? ==> r.value + [] == r.value;
    }
    assert Collect([card], CardCandidates) == CardCandidates(card) by {
      assert [card][0] == card && [card][1..] == [];
      var r := CardCandidates(card);
      assert r.Ok? ==> r.value + [] == r.value;
    }
  }

  lemma DishCardIsCandidate(tag: string, name: string, price: int, restaurant: string, minutes: int)
    ensures GroupCardCandidates(DishCard(tag, name, price, restaurant, minutes)) ==
            if tag == DishType then Ok([DishCandidate(tag, name, price, restaurant, minutes)]) else Ok([])
  {
    var inner := DishCard(tag, name, price, restaurant, minutes).members[0].1.members[0].1;
    assert Get(inner.members, "@type") == Some(JStr(tag));
    assert Get(inner.members, "info") == Some(inner.members[1].1) by {
      assert inner.members[0].0 != "info";
    }
  }

  lemma DishCandidateExtracts(name: string, price: int, restaurant: string, minutes: int)
    ensures ExtractDish(DishCandidate(DishType, name, price, restaurant, minutes)) ==
            Some(ItemOf(name, price, restaurant, minutes))
  {
    var c := DishCandidate(DishType, name, price, restaurant, minutes);
    var sla := [("deliveryTime", JInt(minutes))];
    var ri := [("name", JStr(restaurant)), ("sla", JObj(sla))];
    var r := [("info", JObj(ri))];
    assert c.card[2] == ("restaurant", JObj(r));
    assert Get(c.card, "restaurant") == Some(JObj(r)) by {
      assert c.card[0].0 != "restaurant" && c.card[1].0 != "restaurant";
    }
    assert Get(ri, "sla") == Some(JObj(sla)) by {
      assert ri[0].0 != "sla";
    }
    assert c.info == [("name", JStr(name)), ("price", JInt(price))];
    assert Get(c.info, "price") == Some(JInt(price)) by {
      assert c.info[0].0 != "price";
    }
    assert PyText.PyStr(JInt(minutes)) == PyText.Decimal(minutes);
    ExtractedFrom(c, r, ri, sla, restaurant, name, price, JInt(minutes));
  }

  /** The item a dish card of the dish type yields. */
  function ItemOf(name: string, price: int, restaurant: string, minutes: int): PizzaItem
  {
    PizzaItem(restaurant, name, price as real / 100.0, PyText.Decimal(minutes) + " mins")
  }

  /** A response holding one dish card yields exactly that dish. */
  lemma SingleDish(name: string, price: int, restaurant: string, minutes: int)
    ensures FilteredResults(Response([DishCard(DishType, name, price, restaurant, minutes)])) ==
            Ok([ItemOf(name, price, restaurant, minutes)])
  {
    var gc := DishCard(DishType, name, price, restaurant, minutes);
    var c := DishCandidate(DishType, name, price, restaurant, minutes);
    var item := ItemOf(name, price, restaurant, minutes);
    assert Candidates(Response([gc])) == Ok([c]) by {
      ResponseCandidates([gc]);
      DishCardIsCandidate(DishType, name, price, restaurant, minutes);
      CollectOne(gc, [c]);
    }
    assert Harvest([c]) == [item] by {
      DishCandidateExtracts(name, price, restaurant, minutes);
      HarvestOne(c, item);
    }
  }

  lemma ThirtyFiveMinutes()
    ensures PyText.Decimal(35) + " mins" == "35 mins"
  {
    assert PyText.Decimal(35) == "35" by {
      assert PyText.Digits(35) == PyText.Digits(3) + [PyText.DigitChar(5)];
    }
    assert "35 mins" == "35 mins"[..2] + "35 mins"[2..];
  }

  /** One Margherita at 29900 paise from "Pizza Hub", 35 minutes away. */
  lemma MargheritaScenario()
    ensures FilteredResults(Response([DishCard(DishType, "Margherita", 29900, "Pizza Hub", 35)])) ==
            Ok([PizzaItem("Pizza Hub", "Margherita", 299.0, "35 mins")])
  {
    SingleDish("Margherita", 29900, "Pizza Hub", 35);
    ThirtyFiveMinutes();
    assert (29900 as real) / 100.0 == 299.0;
  }

  lemma CollectOne(gc: Json, cs: seq<Candidate>)
    requires GroupCardCandidates(gc) == Ok(cs)
    ensures Collect([gc], GroupCardCandidates) == Ok(cs)
  {
    assert [gc][0] == gc && [gc][1..] == [];
    assert cs + [] == cs;
  }

  lemma HarvestOne(c: Candidate, item: PizzaItem)
    requires ExtractDish(c) == Some(item)
    ensures Harvest([c]) == [item]
  {
    assert [c][0] == c && [c][1..] == [];
    assert [item] + [] == [item];
  }

  /** Two dishes around a card of another type: the two dishes, in input order. */
  lemma OtherTypeIsFilteredOut(a: (string, int, string, int), tag: string, b: (string, int, string, int))
    requires tag != DishType
    ensures FilteredResults(Response([
              DishCard(DishType, a.0, a.1, a.2, a.3),
              DishCard(tag, a.0, a.1, a.2, a.3),
              DishCard(DishType, b.0, b.1, b.2, b.3)])) ==
            Ok([ItemOf(a.0, a.1, a.2, a.3), ItemOf(b.0, b.1, b.2, b.3)])
  {
    var g1 := DishCard(DishType, a.0, a.1, a.2, a.3);
    var g2 := DishCard(tag, a.0, a.1, a.2, a.3);
    var g3 := DishCard(DishType, b.0, b.1, b.2, b.3);
    var c1 := DishCandidate(DishType, a.0, a.1, a.2, a.3);
    var c3 := DishCandidate(DishType, b.0, b.1, b.2, b.3);
    var gcs := [g1, g2, g3];
    assert Candidates(Response(gcs)) == Ok([c1, c3]) by {
      ResponseCandidates(gcs);
      DishCardIsCandidate(tag, a.0, a.1, a.2, a.3);
      SkippedElementIsNeutral(gcs, GroupCardCandidates, 1);
      assert gcs[..1] + gcs[2..] == [g1] + [g3];
      CollectAppend([g1], [g3], GroupCardCandidates);
      DishCardIsCandidate(DishType, a.0, a.1, a.2, a.3);
      DishCardIsCandidate(DishType, b.0, b.1, b.2, b.3);
      CollectOne(g1, [c1]);
      CollectOne(g3, [c3]);
      assert [c1] + [c3] == [c1, c3];
    }
    assert Harvest([c1, c3]) == [ItemOf(a.0, a.1, a.2, a.3), ItemOf(b.0, b.1, b.2, b.3)] by {
      DishCandidateExtracts(a.0, a.1, a.2, a.3);
      DishCandidateExtracts(b.0, b.1, b.2, b.3);
      HarvestOne(c1, ItemOf(a.0, a.1, a.2, a.3));
      HarvestOne(c3, ItemOf(b.0, b.1, b.2, b.3));
      assert [c1, c3] == [c1] + [c3];
      HarvestAppend([c1], [c3]);
    }
  }
}
