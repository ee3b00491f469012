/** One dish candidate turned into a PizzaItem: the body of the per-candidate
    `try` block (main.py:183-205) and the record it builds (main.py:39-43). */
module Dish {
  import opened Results
  import opened PyJson
  import opened PyText

  /** The `@type` tag that marks an inner card as a dish. */
  const DishType: string := "type.googleapis.com/swiggy.presentation.food.v2.Dish"

  /** The output record. The price is exact: the source's float division is
      modelled as division of reals. */
  datatype PizzaItem = PizzaItem(
    restaurantName: string,
    itemName: string,
    price: real,
    deliveryTime: string)

  /** A dish candidate: the members of an inner card whose `@type` is DishType,
      and the members of its `info` object. */
  datatype Candidate = Candidate(card: seq<(string, Json)>, info: seq<(string, Json)>)

  /** `float(v)` for a JSON value; None stands for the TypeError or ValueError it raises. */
  function PyFloat(v: Json): (r: Option<real>)
    ensures v.JInt? ==> r == Some(v.i as real)
    ensures (v.JNull? || v.JArr? || v.JObj?) ==> r.None?
    ensures v.JStr? ==> (r.Some? <==> ParseInt(v.s).Some?)
  {
    match v
    case JInt(i) => Some(i as real)
    case JBool(b) => Some(if b then 1.0 else 0.0)
    case JStr(s) => (match ParseInt(s) case Some(i) => Some(i as real) case None => None)
    case _ => None
  }

  /** `inner_card.get("restaurant", {}).get("info", {})`; None when the second
      `.get` meets a `restaurant` that is not a dict (main.py:185), and also when
      `info` is present but not a dict: the source raises there only at the next
      `.get` on it (main.py:186), with the same outcome, the candidate dropped. */
  function RestaurantInfo(c: Candidate): Option<seq<(string, Json)>>
  {
    var restaurant := GetOr(c.card, "restaurant", JObj([]));
    if !restaurant.JObj? then None
    else
      var info := GetOr(restaurant.members, "info", JObj([]));
      if info.JObj? then Some(info.members) else None
  }

  /** The `delivery_time` of main.py:192-194; None when `sla` is not a dict. */
  function DeliveryTime(restaurantInfo: seq<(string, Json)>): Option<string>
  {
    match Get(restaurantInfo, "sla")
    case None => Some("Unknown")
    case Some(sla) =>
      if sla.JObj? then Some(PyStr(GetOr(sla.members, "deliveryTime", JStr("Unknown"))) + " mins")
      else None
  }

  /** The `try` block for one candidate: Some(item) when it appends `item`,
      None when it raises (and the candidate is dropped). The PizzaItem
      constructor accepts only strings for its two name fields. */
  function ExtractDish(c: Candidate): Option<PizzaItem>
  {
    match RestaurantInfo(c)
    case None => None
    case Some(restaurantInfo) =>
      var restaurantName := GetOr(restaurantInfo, "name", JStr("Unknown"));
      var price := PyFloat(GetOr(c.info, "price", JInt(0)));
      var deliveryTime := DeliveryTime(restaurantInfo);
      var itemName := GetOr(c.info, "name", JStr("Unknown"));
      if price.None? || deliveryTime.None? || !restaurantName.JStr? || !itemName.JStr? then None
      else Some(PizzaItem(restaurantName.s, itemName.s, price.value / 100.0, deliveryTime.value))
  }

  /** An extracted item is built from the restaurant info and the delivery time
      computed on the way. */
  lemma ExtractedParts(c: Candidate, item: PizzaItem)
    requires ExtractDish(c) == Some(item)
    ensures RestaurantInfo(c).Some?
    ensures DeliveryTime(RestaurantInfo(c).value) == Some(item.deliveryTime)
  {
  }

  /** A dish whose `restaurant.info` holds a string `name` and an `sla` with
      `deliveryTime` v, and whose `info` holds a string `name` and an integer
      `price` p, yields the item with those names, price p / 100 and
      delivery time `str(v) + " mins"`. */
  lemma ExtractedFrom(c: Candidate, r: seq<(string, Json)>, ri: seq<(string, Json)>, sla: seq<(string, Json)>,
                      restaurantName: string, itemName: string, p: int, v: Json)
    requires Get(c.card, "restaurant") == Some(JObj(r)) && Get(r, "info") == Some(JObj(ri))
    requires Get(ri, "name") == Some(JStr(restaurantName))
    requires Get(ri, "sla") == Some(JObj(sla)) && Get(sla, "deliveryTime") == Some(v)
    requires Get(c.info, "name") == Some(JStr(itemName))
    requires Get(c.info, "price") == Some(JInt(p))
    ensures ExtractDish(c).Some?
    ensures ExtractDish(c).value.restaurantName == restaurantName
    ensures ExtractDish(c).value.itemName == itemName
    ensures ExtractDish(c).value.price == p as real / 100.0
    ensures ExtractDish(c).value.deliveryTime == PyStr(v) + " mins"
  {
    InfoChain(c, r, ri);
    SlaChain(ri, sla, v);
    FieldChain(c, ri, restaurantName, itemName, p);
    Builds(c, ri, restaurantName, itemName, p as real, PyStr(v) + " mins");
  }

  lemma FieldChain(c: Candidate, ri: seq<(string, Json)>, restaurantName: string, itemName: string, p: int)
    requires Get(ri, "name") == Some(JStr(restaurantName))
    requires Get(c.info, "name") == Some(JStr(itemName))
    requires Get(c.info, "price") == Some(JInt(p))
    ensures GetOr(ri, "name", JStr("Unknown")) == JStr(restaurantName)
    ensures GetOr(c.info, "name", JStr("Unknown")) == JStr(itemName)
    ensures PyFloat(GetOr(c.info, "price", JInt(0))) == Some(p as real)
  {
  }

  lemma InfoChain(c: Candidate, r: seq<(string, Json)>, ri: seq<(string, Json)>)
    requires Get(c.card, "restaurant") == Some(JObj(r)) && Get(r, "info") == Some(JObj(ri))
    ensures RestaurantInfo(c) == Some(ri)
  {
  }

  lemma SlaChain(ri: seq<(string, Json)>, sla: seq<(string, Json)>, v: Json)
    requires Get(ri, "sla") == Some(JObj(sla)) && Get(sla, "deliveryTime") == Some(v)
    ensures DeliveryTime(ri) == Some(PyStr(v) + " mins")
  {
  }

  /** The success branch of ExtractDish, stated on the values it combines. */
  lemma Builds(c: Candidate, ri: seq<(string, Json)>, restaurantName: string, itemName: string,
               price: real, deliveryTime: string)
    requires RestaurantInfo(c) == Some(ri)
    requires GetOr(ri, "name", JStr("Unknown")) == JStr(restaurantName)
    requires GetOr(c.info, "name", JStr("Unknown")) == JStr(itemName)
    requires PyFloat(GetOr(c.info, "price", JInt(0))) == Some(price)
    requires DeliveryTime(ri) == Some(deliveryTime)
    ensures ExtractDish(c) == Some(PizzaItem(restaurantName, itemName, price / 100.0, deliveryTime))
  {
  }

  /** The price is `info.price / 100`, and 0 when `info` has no price. */
  lemma PriceRule(c: Candidate, item: PizzaItem)
    requires ExtractDish(c) == Some(item)
    ensures Get(c.info, "price") == None ==> item.price == 0.0
    ensures forall p: int :: Get(c.info, "price") == Some(JInt(p)) ==> item.price == p as real / 100.0
  {
  }

  /** A price written as the decimal string of p converts to the same price as p. */
  lemma PriceFromDecimalString(c: Candidate, p: int, item: PizzaItem)
    requires Get(c.info, "price") == Some(JStr(Decimal(p)))
    requires ExtractDish(c) == Some(item)
    ensures item.price == p as real / 100.0
  {
    ParseIntOfDecimal(p);
  }

  /** A price that `float()` cannot convert drops the candidate; it is not defaulted. */
  lemma UnconvertiblePriceDrops(c: Candidate)
    requires Get(c.info, "price").Some?
    requires PyFloat(Get(c.info, "price").value).None?
    ensures ExtractDish(c) == None
  {
  }

  /** The restaurant name is `restaurant.info.name`, or "Unknown" when any link is missing. */
  lemma RestaurantNameRule(c: Candidate, item: PizzaItem)
    requires ExtractDish(c) == Some(item)
    ensures Get(c.card, "restaurant") == None ==> item.restaurantName == "Unknown"
    ensures forall r, ri, n ::
      (Get(c.card, "restaurant") == Some(JObj(r)) && Get(r, "info") == Some(JObj(ri)) &&
       Get(ri, "name") == Some(JStr(n))) ==> item.restaurantName == n
    ensures forall r ::
      Get(c.card, "restaurant") == Some(JObj(r)) && Get(r, "info") == None ==>
      item.restaurantName == "Unknown"
    ensures forall r, ri ::
      (Get(c.card, "restaurant") == Some(JObj(r)) && Get(r, "info") == Some(JObj(ri)) &&
       Get(ri, "name") == None) ==> item.restaurantName == "Unknown"
  {
  }

  /** The item name is `info.name`, or "Unknown" when `info` has no name. */
  lemma ItemNameRule(c: Candidate, item: PizzaItem)
    requires ExtractDish(c) == Some(item)
    ensures Get(c.info, "name") == None ==> item.itemName == "Unknown"
    ensures forall n :: Get(c.info, "name") == Some(JStr(n)) ==> item.itemName == n
  {
  }

  /** The delivery time is "Unknown" without `sla`, "<v> mins" when `sla.deliveryTime`
      is v, and "Unknown mins" when `sla` has no `deliveryTime`. */
  lemma DeliveryTimeRule(c: Candidate, item: PizzaItem, ri: seq<(string, Json)>)
    requires ExtractDish(c) == Some(item)
    requires RestaurantInfo(c) == Some(ri)
    ensures Get(ri, "sla") == None ==> item.deliveryTime == "Unknown"
    ensures forall sla, v :: Get(ri, "sla") == Some(JObj(sla)) && Get(sla, "deliveryTime") == Some(v) ==>
      item.deliveryTime == PyStr(v) + " mins"
    ensures forall sla :: Get(ri, "sla") == Some(JObj(sla)) && Get(sla, "deliveryTime") == None ==>
      item.deliveryTime == "Unknown mins"
  {
    ExtractedParts(c, item);
    assert "Unknown" + " mins" == "Unknown mins" by {
      assert "Unknown mins" == "Unknown mins"[..7] + "Unknown mins"[7..];
    }
  }

  /** A candidate is dropped exactly when one of the expressions in the `try`
      block raises: a `.get` on a restaurant, restaurant info or sla that is not
      a dict, a price `float()` rejects, or a name that is present but not a string.
      A missing field never drops the candidate. */
  lemma DroppedExactlyWhen(c: Candidate)
    ensures ExtractDish(c).None? <==>
      || RestaurantInfo(c).None?
      || PyFloat(GetOr(c.info, "price", JInt(0))).None?
      || (Get(c.info, "name").Some? && !Get(c.info, "name").value.JStr?)
      || (RestaurantInfo(c).Some? &&
          var ri := RestaurantInfo(c).value;
          || (Get(ri, "sla").Some? && !Get(ri, "sla").value.JObj?)
          || (Get(ri, "name").Some? && !Get(ri, "name").value.JStr?))
  {
  }
}
