/** The in-memory item store (`_items`): an int-keyed table of items with
    fresh ids one above the largest, read by `get_item` and `list_items`
    and changed in place by `create_item` and `update_item`. Request
    bodies are what `request.get_json(silent=True)` gives: `None` for a
    body that is not JSON, otherwise a JSON object. */
module Items {
  import opened Values

  /** A stored item; `name` and `description` keep whatever JSON the
      client sent. */
  datatype Item = Item(id: int, name: Json, description: Json)

  type Body = Option<map<string, Json>>

  const NotFoundText: string := "Item não encontrado"
  const CreateRejected: string := "JSON inválido ou campo 'name' ausente"
  const UpdateRejected: string := "JSON inválido"

  /** Python's truth value of the body: `None` and `{}` are false. */
  predicate Truthy(body: Body)
  {
    body.Some? && body.value != map[]
  }

  /** `max(s, default=0)`. */
  function MaxOr0(s: seq<int>): (m: int)
    ensures forall x :: x in s ==> x <= m
    ensures s == [] ==> m == 0
    ensures s != [] ==> m in s
  {
    if s == [] then 0
    else if |s| == 1 then s[0]
    else
      var m := MaxOr0(s[..|s| - 1]);
      assert s == s[..|s| - 1] + [s[|s| - 1]];
      if s[|s| - 1] > m then s[|s| - 1] else m
  }

  /** The fields `update_item` overwrites: those the body carries, and no
      others; the id is never touched. */
  function Patched(item: Item, data: map<string, Json>): (r: Item)
    ensures r.id == item.id
    ensures r.name == (if "name" in data then data["name"] else item.name)
    ensures r.description == (if "description" in data then data["description"] else item.description)
  {
    var named := if "name" in data then item.(name := data["name"]) else item;
    if "description" in data then named.(description := data["description"]) else named
  }

  class ItemStore {
    /** `_items`, keyed by id. */
    var items: map<int, Item>
    /** The dictionary's insertion order, which `list_items` follows. */
    var order: seq<int>

    /** Each item sits under its own id, ids are positive, and the
        insertion order lists every key once, in increasing order (ids are
        only ever allocated above all existing ones). */
    ghost predicate Valid()
      reads this
    {
      && (forall k :: k in items ==> items[k].id == k && 1 <= k)
      && (forall i, j :: 0 <= i < j < |order| ==> order[i] < order[j])
      && (forall k :: k in items <==> k in order)
    }

    /** The two seed items. */
    constructor ()
      ensures Valid()
      ensures items == map[1 := Item(1, JStr("Caneta"), JStr("Caneta azul")),
                           2 := Item(2, JStr("Caderno"), JStr("Caderno A4"))]
      ensures order == [1, 2]
    {
      items := map[1 := Item(1, JStr("Caneta"), JStr("Caneta azul")),
                   2 := Item(2, JStr("Caderno"), JStr("Caderno A4"))];
      order := [1, 2];
    }

    /** `next_id`: one more than the largest id, or 1 on an empty store;
        hence above every id in use. */
    function NextId(): (id: int)
      reads this
      requires Valid()
      ensures forall k :: k in items ==> k < id
      ensures 1 <= id
      ensures items == map[] ==> id == 1
      ensures items != map[] ==> id - 1 in items
    {
      assert order != [] ==> order[0] in order && order[0] in items;
      MaxOr0(order) + 1
    }

    /** `get_item`: the stored item, or a 404 for an id not in use. */
    function Get(id: int): (r: Result<Item, HttpError>)
      reads this
      ensures r.Success? <==> id in items
      ensures r.Success? ==> r.value == items[id]
      ensures r.Failure? ==> r.error == NotFound(NotFoundText)
    {
      if id in items then Success(items[id]) else Failure(NotFound(NotFoundText))
    }

    /** `list_items`: every stored item once, in insertion order, which is
        increasing id order. */
    function List(): (r: seq<Item>)
      reads this
      requires Valid()
      ensures |r| == |items|
      ensures forall it :: it in r <==> exists k :: k in items && items[k] == it
      ensures forall i, j :: 0 <= i < j < |r| ==> r[i].id < r[j].id
    {
      ListedExactly(order, items);
      ValuesInOrder(order, items)
    }

    /** `create_item`: a body that is missing, empty or lacks "name" is
        refused with a 400 and nothing changes; otherwise exactly one item
        is added, under the fresh id, with the given name and the given
        description or "", and every other item stays as it was. */
    method Create(body: Body) returns (res: Result<Item, HttpError>)
      requires Valid()
      modifies this
      ensures Valid()
      ensures !Truthy(body) || "name" !in body.value ==>
        res == Failure(BadRequest(CreateRejected)) && items == old(items) && order == old(order)
      ensures Truthy(body) && "name" in body.value ==>
        var data := body.value;
        var id := old(NextId());
        var item := Item(id, data["name"], if "description" in data then data["description"] else JStr(""));
        && id !in old(items)
        && res == Success(item)
        && items == old(items)[id := item]
        && order == old(order) + [id]
    {
      if !Truthy(body) || "name" !in body.value {
        return Failure(BadRequest(CreateRejected));
      }
      var data := body.value;
      var id := NextId();
      var item := Item(id, data["name"], if "description" in data then data["description"] else JStr(""));
      items := items[id := item];
      order := order + [id];
      res := Success(item);
    }

    /** `update_item`: an id not in use is a 404, checked before the body;
        a missing or empty body is a 400; otherwise only the "name" and
        "description" fields the body carries are overwritten, and no
        other item and no order changes. */
    method Update(id: int, body: Body) returns (res: Result<Item, HttpError>)
      requires Valid()
      modifies this
      ensures Valid()
      ensures order == old(order)
      ensures id !in old(items) ==> res == Failure(NotFound(NotFoundText)) && items == old(items)
      ensures id in old(items) && !Truthy(body) ==>
        res == Failure(BadRequest(UpdateRejected)) && items == old(items)
      ensures id in old(items) && Truthy(body) ==>
        && res == Success(Patched(old(items)[id], body.value))
        && items == old(items)[id := Patched(old(items)[id], body.value)]
    {
      if id !in items {
        return Failure(NotFound(NotFoundText));
      }
      if !Truthy(body) {
        return Failure(BadRequest(UpdateRejected));
      }
      var item := Patched(items[id], body.value);
      items := items[id := item];
      res := Success(item);
    }
  }

  /** The values stored under `order`'s keys, in that order. */
  function ValuesInOrder(order: seq<int>, items: map<int, Item>): (r: seq<Item>)
    requires forall i :: 0 <= i < |order| ==> order[i] in items
    ensures |r| == |order| && forall i :: 0 <= i < |order| ==> r[i] == items[order[i]]
  {
    seq(|order|, i requires 0 <= i < |order| => items[order[i]])
  }

  /** Listing a valid store in insertion order yields each stored item
      exactly once, in increasing id order. */
  lemma ListedExactly(order: seq<int>, items: map<int, Item>)
    requires forall k :: k in items ==> items[k].id == k
    requires forall i, j :: 0 <= i < j < |order| ==> order[i] < order[j]
    requires forall k :: k in items <==> k in order
    ensures forall i :: 0 <= i < |order| ==> order[i] in items
    ensures var r := ValuesInOrder(order, items);
      && |r| == |items|
      && (forall it :: it in r <==> exists k :: k in items && items[k] == it)
      && (forall i, j :: 0 <= i < j < |r| ==> r[i].id < r[j].id)
  {
    forall i | 0 <= i < |order| ensures order[i] in items {
      assert order[i] in order;
    }
    var r := ValuesInOrder(order, items);
    forall it | it in r ensures exists k :: k in items && items[k] == it {
      var i :| 0 <= i < |r| && r[i] == it;
      assert order[i] in order;
    }
    forall k | k in items ensures items[k] in r {
      var i :| 0 <= i < |order| && order[i] == k;
      assert r[i] == items[k];
    }
    DistinctCount(order, items.Keys);
  }

  /** A strictly increasing sequence whose elements are exactly the
      members of a set has one element per member. */
  lemma {:induction false} DistinctCount(s: seq<int>, keys: set<int>)
    requires forall i, j :: 0 <= i < j < |s| ==> s[i] < s[j]
    requires forall k :: k in keys <==> k in s
    ensures |s| == |keys|
  {
    if s != [] {
      var last := s[|s| - 1];
      var init := s[..|s| - 1];
      assert s == init + [last];
      assert last !in init by {
        forall i | 0 <= i < |init| ensures init[i] != last {
          assert init[i] == s[i];
        }
      }
      assert last in keys;
      forall k ensures k in keys - {last} <==> k in init {
      }
      assert |keys - {last}| == |keys| - 1;
      DistinctCount(init, keys - {last});
    } else {
      assert keys == {} by {
        assert forall k :: k in keys ==> k in s;
      }
    }
  }
}
