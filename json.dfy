/** Parsed JSON values and the Python operations the extractor applies to them:
    `key in v`, `v[key]`, `v.get(key, default)`, `v.items()` and `for x in v`. */
module PyJson {
  import opened Results

  /** A value produced by `response.json()`. An object is an association list
      in the dict's iteration order. */
  datatype Json =
    | JNull
    | JBool(b: bool)
    | JInt(i: int)
    | JStr(s: string)
    | JArr(items: seq<Json>)
    | JObj(members: seq<(string, Json)>)

  /** `d.get(key)`: the value bound to `key`, or None when the key is absent. */
  function Get(members: seq<(string, Json)>, key: string): (r: Option<Json>)
    ensures r.None? <==> forall k :: 0 <= k < |members| ==> members[k].0 != key
    ensures r.Some? ==> exists k :: 0 <= k < |members| && members[k] == (key, r.value)
  {
    if members == [] then None
    else if members[0].0 == key then Some(members[0].1)
    else Get(members[1..], key)
  }

  /** `d.get(key, default)`. */
  function GetOr(members: seq<(string, Json)>, key: string, default: Json): Json
  {
    match Get(members, key)
    case Some(v) => v
    case None => default
  }

  /** Python's `needle in hay` on two strings, scanning hay from the left. */
  function IsSubstring(needle: string, hay: string): bool
    decreases |hay|
  {
    needle <= hay || (hay != [] && IsSubstring(needle, hay[1..]))
  }

  /** `needle` sits in `hay` at offset `i`. */
  ghost predicate OccursAt(needle: string, hay: string, i: int)
  {
    0 <= i && i + |needle| <= |hay| && hay[i..i + |needle|] == needle
  }

  /** The textbook meaning of "substring": an occurrence at some offset. */
  ghost predicate OccursIn(needle: string, hay: string)
  {
    exists i :: OccursAt(needle, hay, i)
  }

  /** An occurrence at offset 0 is a prefix. */
  lemma OccursAtStart(needle: string, hay: string)
    ensures OccursAt(needle, hay, 0) <==> needle <= hay
  {
    if needle <= hay {
      assert hay[..|needle|] == needle;
    }
  }

  /** Dropping the first character of hay moves every later occurrence one place left. */
  lemma OccursShift(needle: string, hay: string, i: int)
    requires hay != [] && 1 <= i
    ensures OccursAt(needle, hay, i) <==> OccursAt(needle, hay[1..], i - 1)
  {
    if i + |needle| <= |hay| {
      assert hay[1..][i - 1..i - 1 + |needle|] == hay[i..i + |needle|];
    }
  }

  lemma {:induction false} IsSubstringMeansOccurs(needle: string, hay: string)
    ensures IsSubstring(needle, hay) <==> OccursIn(needle, hay)
    decreases |hay|
  {
    OccursAtStart(needle, hay);
    if needle <= hay {
    } else if hay == [] {
    } else {
      IsSubstringMeansOccurs(needle, hay[1..]);
      if OccursIn(needle, hay) {
        var i :| OccursAt(needle, hay, i);
        OccursShift(needle, hay, i);
      }
      if OccursIn(needle, hay[1..]) {
        var i :| OccursAt(needle, hay[1..], i);
        OccursShift(needle, hay, i + 1);
      }
    }
  }

  /** `key in node` followed, when that holds, by `node[key]`.
      Ok(None): the key is not there and the branch is skipped.
      Ok(Some(v)): the node is a dict binding key to v. */
  function Descend(node: Json, key: string): Result<Option<Json>>
  {
    match node
    case JObj(ms) => Ok(Get(ms, key))
    case JArr(xs) => if JStr(key) in xs then Err(TypeError) else Ok(None)
    case JStr(s) => if IsSubstring(key, s) then Err(TypeError) else Ok(None)
    case _ => Err(TypeError)
  }

  /** What `key in node` followed by `node[key]` does with each kind of value.
      Only a dict can yield a value. On a list, `in` compares the key with every
      element, and subscripting a list with a string raises; on a string, `in` is
      a substring test, and subscripting a string with a string raises; on a
      number, a bool or None, `in` itself raises. Every exception is a TypeError. */
  lemma DescendMeaning(node: Json, key: string)
    ensures Descend(node, key).Ok? && Descend(node, key).value.Some? <==>
      node.JObj? && Get(node.members, key).Some?
    ensures node.JObj? ==> Descend(node, key) == Ok(Get(node.members, key))
    ensures Descend(node, key).Err? ==> Descend(node, key).error == TypeError
    ensures Descend(node, key).Err? <==>
      || node.JNull? || node.JBool? || node.JInt?
      || (node.JArr? && JStr(key) in node.items)
      || (node.JStr? && OccursIn(key, node.s))
  {
    IsSubstringMeansOccurs(key, if node.JStr? then node.s else "");
  }

  /** `for x in node`: a list yields its elements, a dict its keys, a string its
      one-character strings; anything else is not iterable. */
  function Iter(node: Json): Result<seq<Json>>
  {
    match node
    case JArr(xs) => Ok(xs)
    case JObj(ms) => Ok(seq(|ms|, k requires 0 <= k < |ms| => JStr(ms[k].0)))
    case JStr(s) => Ok(seq(|s|, k requires 0 <= k < |s| => JStr([s[k]])))
    case _ => Err(TypeError)
  }

  /** `for x in node` agrees with `x in node` and with `node.items()`: iterating
      a dict yields the keys `items()` lists, each found by `key in node`; every
      one-character string iterated from a string is `in` it, and so is every
      string element of a list (and subscripting either with it raises); a node
      that cannot be iterated raises on `key in node` for every key. */
  lemma IterMeaning(node: Json, key: string)
    ensures Iter(node).Err? <==> node.JNull? || node.JBool? || node.JInt?
    ensures Iter(node).Err? ==> Iter(node).error == TypeError && Descend(node, key) == Err(TypeError)
    ensures node.JArr? ==> Iter(node) == Ok(node.items)
    ensures node.JObj? ==>
      && Iter(node).Ok? && |Iter(node).value| == |Items(node).value|
      && forall k :: 0 <= k < |Iter(node).value| ==> Iter(node).value[k] == JStr(Items(node).value[k].0)
    ensures node.JObj? ==>
      forall k :: 0 <= k < |node.members| ==> Descend(node, node.members[k].0).value.Some?
    ensures node.JStr? ==>
      && Iter(node).Ok? && |Iter(node).value| == |node.s|
      && forall k :: 0 <= k < |node.s| ==>
           Iter(node).value[k] == JStr([node.s[k]]) && Descend(node, [node.s[k]]) == Err(TypeError)
    ensures node.JArr? ==>
      forall k :: 0 <= k < |node.items| && node.items[k].JStr? ==>
        Descend(node, node.items[k].s) == Err(TypeError)
  {
    if node.JStr? {
      forall k | 0 <= k < |node.s|
        ensures Descend(node, [node.s[k]]) == Err(TypeError)
      {
        assert node.s[k..k + 1] == [node.s[k]];
        assert OccursAt([node.s[k]], node.s, k);
        IsSubstringMeansOccurs([node.s[k]], node.s);
      }
    }
    if node.JArr? {
      forall k | 0 <= k < |node.items| && node.items[k].JStr?
        ensures Descend(node, node.items[k].s) == Err(TypeError)
      {
        assert JStr(node.items[k].s) == node.items[k];
      }
    }
  }

  /** `node.items()`: only a dict has it. */
  function Items(node: Json): (r: Result<seq<(string, Json)>>)
    ensures r.Ok? <==> node.JObj?
    ensures r.Ok? ==> r.value == node.members
    ensures r.Err? ==> r.error == AttributeError
  {
    if node.JObj? then Ok(node.members) else Err(AttributeError)
  }
}
