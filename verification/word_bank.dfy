/**
 * The vocabulary word bank: rooms of the house, each with an ordered list of
 * bilingual entries, and the accessor that flattens all rooms into one list.
 */
module WordBankData {

  /** One vocabulary entry: the Chinese term, the English term and the slug
      that names the entry's picture files. */
  datatype Item = Item(chinese: string, english: string, baseName: string)

  /** A room of the house, keyed by its Chinese name, with its entries in
      display order. */
  datatype Room = Room(key: string, items: seq<Item>)

  /** The word bank, rooms in the order the object literal lists them (which
      is the order a `for...in` loop visits string keys). */
  const WordBank: seq<Room> := [
    Room("客廳", [
      Item("沙發", "Sofa", "sofa"),
      Item("電視", "TV", "tv"),
      Item("桌子", "Table", "table"),
      Item("椅子", "Chair", "chair"),
      Item("燈", "Light", "light")
    ]),
    Room("臥室", [
      Item("床", "Bed", "bed"),
      Item("枕頭", "Pillow", "pillow"),
      Item("衣櫃", "Closet", "closet"),
      Item("冷氣", "AC", "ac"),
      Item("玩具", "Toy", "toy")
    ]),
    Room("廚房", [
      Item("冰箱", "fridge", "fridge"),
      Item("水槽", "Sink", "sink"),
      Item("瓦斯爐", "Stove", "stove")
    ]),
    Room("浴室", [
      Item("馬桶", "Toilet", "toilet"),
      Item("浴缸", "Bathtub", "bathtub"),
      Item("水槽", "Sink", "sink"),
      Item("鏡子", "Mirror", "mirror")
    ])
  ]

  /** The sink entry, listed both in the kitchen and in the bathroom. */
  const Sink: Item := Item("水槽", "Sink", "sink")

  /** Reference definition: the rooms' lists concatenated in room order, as
      long as all of them together. */
  function Flatten(rooms: seq<Room>): (r: seq<Item>)
    ensures |r| == TotalCount(rooms)
  {
    if rooms == [] then [] else rooms[0].items + Flatten(rooms[1..])
  }

  /** Sum of the lengths of the rooms' lists. */
  function TotalCount(rooms: seq<Room>): nat
  {
    if rooms == [] then 0 else |rooms[0].items| + TotalCount(rooms[1..])
  }

  /** How many times `x` occurs in the rooms' lists, summed over the rooms. */
  function Occurrences(rooms: seq<Room>, x: Item): nat
  {
    if rooms == [] then 0 else multiset(rooms[0].items)[x] + Occurrences(rooms[1..], x)
  }

  /** No two entries of the list share a `baseName`. */
  predicate DistinctBaseNames(items: seq<Item>)
  {
    forall i, j :: 0 <= i < j < |items| ==> items[i].baseName != items[j].baseName
  }

  /** `getAllItems`: starts from an empty accumulator and appends each room's
      list in turn. The bank is a value, so the method cannot change it. */
  method GetAllItems(bank: seq<Room>) returns (all: seq<Item>)
    ensures all == Flatten(bank)
    ensures |all| == TotalCount(bank)
  {
    all := [];
    var i := 0;
    while i < |bank|
      invariant 0 <= i <= |bank|
      invariant all == Flatten(bank[..i])
    {
      FlattenAppend(bank[..i], [bank[i]]);
      assert bank[..i + 1] == bank[..i] + [bank[i]];
      all := all + bank[i].items;
      i := i + 1;
    }
    assert bank[..i] == bank;
  }

  /** Flattening distributes over concatenation of room lists. */
  lemma {:induction false} FlattenAppend(a: seq<Room>, b: seq<Room>)
    ensures Flatten(a + b) == Flatten(a) + Flatten(b)
  {
    if a == [] {
      assert a + b == b;
    } else {
      assert (a + b)[1..] == a[1..] + b;
      FlattenAppend(a[1..], b);
    }
  }

  /** An entry is in the flattened list exactly when some room lists it. */
  lemma {:induction false} FlattenMembership(rooms: seq<Room>, x: Item)
    ensures x in Flatten(rooms) <==> exists k :: 0 <= k < |rooms| && x in rooms[k].items
  {
    if rooms != [] {
      FlattenMembership(rooms[1..], x);
      if x in Flatten(rooms[1..]) {
        var k :| 0 <= k < |rooms[1..]| && x in rooms[1..][k].items;
        assert x in rooms[k + 1].items;
      }
      if exists k :: 0 <= k < |rooms| && x in rooms[k].items {
        var k :| 0 <= k < |rooms| && x in rooms[k].items;
        if k > 0 {
          assert x in rooms[1..][k - 1].items;
        }
      }
    }
  }

  /** Nothing is deduplicated: each entry occurs in the flattened list as
      many times as the rooms list it, all rooms together. */
  lemma {:induction false} FlattenOccurrences(rooms: seq<Room>, x: Item)
    ensures multiset(Flatten(rooms))[x] == Occurrences(rooms, x)
  {
    if rooms != [] {
      FlattenOccurrences(rooms[1..], x);
    }
  }

  /** Order is kept: entry `j` of room `k` sits in the flattened list right
      after all entries of the rooms before `k`. */
  lemma {:induction false} FlattenOrder(rooms: seq<Room>, k: nat, j: nat)
    requires k < |rooms| && j < |rooms[k].items|
    ensures TotalCount(rooms[..k]) + j < |Flatten(rooms)|
    ensures Flatten(rooms)[TotalCount(rooms[..k]) + j] == rooms[k].items[j]
  {
    if k == 0 {
      assert rooms[..0] == [];
    } else {
      assert rooms[..k][1..] == rooms[1..][..k - 1];
      FlattenOrder(rooms[1..], k - 1, j);
    }
  }

  /** The concrete word bank has 4 rooms and 17 entries (5 + 5 + 3 + 4). */
  lemma WordBankCount()
    ensures |WordBank| == 4
    ensures TotalCount(WordBank) == 17
    ensures |Flatten(WordBank)| == 17
  {
  }

  /** The sink entry comes out twice, once from the kitchen and once from
      the bathroom: flattening does not deduplicate. */
  lemma SinkListedTwice()
    ensures Sink in WordBank[2].items && Sink in WordBank[3].items
    ensures multiset(Flatten(WordBank))[Sink] == 2
  {
    SinkNotInFirstRooms();
    SinkOnceInKitchenAndBathroom();
    OccurrencesOfFourRooms(WordBank, Sink);
    FlattenOccurrences(WordBank, Sink);
  }

  /** For four rooms, the occurrences are the four rooms' counts added up. */
  lemma OccurrencesOfFourRooms(rooms: seq<Room>, x: Item)
    requires |rooms| == 4
    ensures Occurrences(rooms, x) ==
      multiset(rooms[0].items)[x] + multiset(rooms[1].items)[x] +
      multiset(rooms[2].items)[x] + multiset(rooms[3].items)[x]
  {
    var r1 := rooms[1..];
    var r2 := r1[1..];
    var r3 := r2[1..];
    assert r3[1..] == [];
    assert Occurrences(r3, x) == multiset(rooms[3].items)[x];
    assert Occurrences(r2, x) == multiset(rooms[2].items)[x] + Occurrences(r3, x);
    assert Occurrences(r1, x) == multiset(rooms[1].items)[x] + Occurrences(r2, x);
  }

  /** Neither the living room nor the bedroom lists the sink. */
  lemma SinkNotInFirstRooms()
    ensures multiset(WordBank[0].items)[Sink] == 0
    ensures multiset(WordBank[1].items)[Sink] == 0
  {
  }

  /** The kitchen and the bathroom each list the sink once. */
  lemma SinkOnceInKitchenAndBathroom()
    ensures multiset(WordBank[2].items)[Sink] == 1
    ensures multiset(WordBank[3].items)[Sink] == 1
  {
  }

  /** `baseName` is unique within each room, yet repeats across rooms. */
  lemma BaseNamesDistinctPerRoom()
    ensures forall k :: 0 <= k < |WordBank| ==> DistinctBaseNames(WordBank[k].items)
    ensures !DistinctBaseNames(Flatten(WordBank))
  {
    var all := Flatten(WordBank);
    FlattenAppend(WordBank[..3], WordBank[3..]);
    assert WordBank[..3] + WordBank[3..] == WordBank;
    assert all[11] == Sink && all[15] == Sink;
  }
}
