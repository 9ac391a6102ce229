/**
  The session's favorites: two ordered lists, one of saved quotes and one of
  saved facts, toggled by exact text, and the counter badge that shows their
  total.
 */
module Favorites {

  /** A saved entry: quotes keep their author, facts are text alone. */
  datatype Item = Quote(text: string, author: string) | Fact(text: string)

  datatype Category = Quotes | Facts

  /** What `toggleFavorite` tells the user: the entry was added or removed. */
  datatype Notice = Added | Removed

  /** The favorites counter badge: never created, shown with a total, or hidden. */
  datatype Counter = Absent | Shown(total: nat) | Hidden

  /** The list a `type` argument selects: only "quote" selects the quotes. */
  function CategoryOf(kind: string): (c: Category)
    ensures c == Quotes <==> kind == "quote"
  {
    if kind == "quote" then Quotes else Facts
  }

  /** The entry a toggle would add for `kind`: it has the given text and the shape of the list `kind` selects. */
  function ItemOf(kind: string, text: string, author: string): (item: Item)
    ensures item.text == text
    ensures item.Quote? <==> CategoryOf(kind) == Quotes
    ensures item.Quote? ==> item.author == author
  {
    if kind == "quote" then Quote(text, author) else Fact(text)
  }

  /** No two entries of the list share a text. */
  ghost predicate UniqueTexts(list: seq<Item>)
  {
    forall i, j :: 0 <= i < j < |list| ==> list[i].text != list[j].text
  }

  /** Every entry of the list has the shape its category stores. */
  ghost predicate Holds(c: Category, list: seq<Item>)
  {
    forall i :: 0 <= i < |list| ==> (list[i].Quote? <==> c == Quotes)
  }

  /** `findIndex(fav => fav.text === text)`: the first position holding `text`, or -1. */
  function IndexOf(list: seq<Item>, text: string): (i: int)
    ensures -1 <= i < |list|
    ensures i == -1 <==> forall j :: 0 <= j < |list| ==> list[j].text != text
    ensures 0 <= i ==> list[i].text == text && forall j :: 0 <= j < i ==> list[j].text != text
  {
    if list == [] then -1
    else if list[0].text == text then 0
    else
      var k := IndexOf(list[1..], text);
      if k == -1 then -1 else k + 1
  }

  /**
    The list after a toggle of `item`: the first entry with its text spliced
    out, or the item pushed. The list grows by one exactly when the text was
    absent, and then ends with the item; otherwise it shrinks by one.
   */
  function Toggled(list: seq<Item>, item: Item): (r: seq<Item>)
    ensures |r| == if IndexOf(list, item.text) == -1 then |list| + 1 else |list| - 1
    ensures IndexOf(list, item.text) == -1 ==> r[|list|] == item
  {
    var i := IndexOf(list, item.text);
    if i > -1 then list[..i] + list[i + 1..] else list + [item]
  }

  /** A toggle neither loses nor invents an entry whose text differs from the toggled one. */
  lemma ToggleKeepsOthers(list: seq<Item>, item: Item, x: Item)
    requires x.text != item.text
    ensures x in Toggled(list, item) <==> x in list
  {
    var i := IndexOf(list, item.text);
    var r := Toggled(list, item);
    if i > -1 {
      assert r == list[..i] + list[i + 1..];
      if x in list {
        var j :| 0 <= j < |list| && list[j] == x;
        assert j != i;
        assert x == (if j < i then r[j] else r[j - 1]);
      }
      if x in r {
        var j :| 0 <= j < |r| && r[j] == x;
        assert x == (if j < i then list[j] else list[j + 1]);
      }
    }
  }

  /** What the badge becomes when `displayFavorites` runs with this total. */
  function DisplayFavorites(counter: Counter, total: nat): (r: Counter)
    ensures r.Shown? <==> total > 0
    ensures r.Shown? ==> r.total == total
    ensures r == Absent <==> counter == Absent && total == 0
  {
    if total > 0 then Shown(total)
    else if counter == Absent then Absent
    else Hidden
  }

  /** A text not in the list is appended, as given, at the end: the list grows by one. */
  lemma ToggleAbsentAppends(list: seq<Item>, item: Item)
    requires forall j :: 0 <= j < |list| ==> list[j].text != item.text
    ensures Toggled(list, item) == list + [item]
    ensures |Toggled(list, item)| == |list| + 1
  {
  }

  /**
    A text in the list removes its first entry: the entries before and after it
    keep their order and the list shrinks by one.
   */
  lemma TogglePresentRemovesFirst(list: seq<Item>, item: Item, i: nat)
    requires i < |list| && list[i].text == item.text
    requires forall j :: 0 <= j < i ==> list[j].text != item.text
    ensures Toggled(list, item) == list[..i] + list[i + 1..]
    ensures |Toggled(list, item)| == |list| - 1
  {
  }

  /** Removing one position of a list with unique texts keeps the texts unique. */
  lemma RemoveKeepsUnique(list: seq<Item>, i: nat)
    requires i < |list| && UniqueTexts(list)
    ensures UniqueTexts(list[..i] + list[i + 1..])
  {
  }

  /** A toggle never creates two entries with the same text. */
  lemma ToggleKeepsUnique(list: seq<Item>, item: Item)
    requires UniqueTexts(list)
    ensures UniqueTexts(Toggled(list, item))
  {
    var i := IndexOf(list, item.text);
    if i > -1 {
      RemoveKeepsUnique(list, i);
    }
  }

  /** A toggle keeps every entry in the shape of its category, given that the item has it. */
  lemma ToggleKeepsShape(c: Category, list: seq<Item>, item: Item)
    requires Holds(c, list) && (item.Quote? <==> c == Quotes)
    ensures Holds(c, Toggled(list, item))
  {
    var i := IndexOf(list, item.text);
    var r := Toggled(list, item);
    if i > -1 {
      assert r == list[..i] + list[i + 1..];
      assert forall j :: 0 <= j < |r| ==> r[j] == (if j < i then list[j] else list[j + 1]);
    } else {
      assert r == list + [item];
      assert forall j :: 0 <= j < |r| ==> r[j] == (if j < |list| then list[j] else item);
    }
  }

  /**
    Toggling an absent text and then toggling the same text again, with any
    author, restores the list exactly.
   */
  lemma {:induction false} ToggleTwiceRestores(list: seq<Item>, item: Item, again: Item)
    requires forall j :: 0 <= j < |list| ==> list[j].text != item.text
    requires again.text == item.text
    ensures Toggled(Toggled(list, item), again) == list
  {
    var added := list + [item];
    assert Toggled(list, item) == added;
    assert added[|list|].text == item.text;
    var k := IndexOf(added, item.text);
    assert forall j :: 0 <= j < |list| ==> added[j] == list[j];
    assert k == |list|;
    assert added[..k] + added[k + 1..] == list;
  }

  /**
    Toggling a text that is present, twice, does not restore the list: the
    entry leaves its place and comes back, as `again`, at the end.
   */
  lemma ToggleTwiceMovesToEnd(list: seq<Item>, item: Item, again: Item, i: nat)
    requires UniqueTexts(list)
    requires i < |list| && list[i].text == item.text
    requires again.text == item.text
    ensures Toggled(Toggled(list, item), again) == list[..i] + list[i + 1..] + [again]
    ensures |Toggled(Toggled(list, item), again)| == |list|
  {
    var once := list[..i] + list[i + 1..];
    TogglePresentRemovesFirst(list, item, i);
    assert forall j :: 0 <= j < |once| ==> once[j] == (if j < i then list[j] else list[j + 1]);
    assert forall j :: 0 <= j < |once| ==> once[j].text != again.text;
    ToggleAbsentAppends(once, again);
  }

  /** Concretely: toggling the first of two quotes twice swaps their order. */
  lemma ToggleTwiceReorders()
    ensures var list := [Quote("X", "Y"), Quote("Z", "W")];
            Toggled(Toggled(list, Quote("X", "Y")), Quote("X", "Y")) != list
  {
  }

  /**
    The session's favorites (`favorites = { quotes: [], facts: [] }`) together
    with the counter badge that `displayFavorites` keeps.
   */
  class Store {
    var quotes: seq<Item>
    var facts: seq<Item>
    var counter: Counter

    /** `quotes.length + facts.length`: no smaller than either list, and zero exactly when both are empty. */
    function Total(): (t: nat)
      reads this
      ensures t >= |quotes| && t >= |facts|
      ensures t == 0 <==> quotes == [] && facts == []
    {
      |quotes| + |facts|
    }

    function List(c: Category): seq<Item>
      reads this
    {
      if c == Quotes then quotes else facts
    }

    /**
      The store's invariant: texts are unique within each list, each list
      holds entries of its own shape, and the badge shows the total exactly
      when there is something to count.
     */
    ghost predicate Valid()
      reads this
    {
      UniqueTexts(quotes) && UniqueTexts(facts) &&
      Holds(Quotes, quotes) && Holds(Facts, facts) &&
      (counter.Shown? <==> Total() > 0) &&
      (counter.Shown? ==> counter.total == Total())
    }

    /** A new session: both lists empty, no badge yet. */
    constructor ()
      ensures Valid()
      ensures quotes == [] && facts == [] && counter == Absent
    {
      quotes, facts, counter := [], [], Absent;
    }

    /** `displayFavorites()`: bring the badge up to date with the total. */
    method UpdateBadge()
      modifies this`counter
      ensures counter == DisplayFavorites(old(counter), Total())
      ensures counter.Shown? <==> Total() > 0
    {
      counter := DisplayFavorites(counter, |quotes| + |facts|);
    }

    /**
      `toggleFavorite(type, text, author)`: only the list `type` selects
      changes, by `Toggled`; the notice says whether the text was absent
      (added) or present (removed); the badge shows the new total.
     */
    method Toggle(kind: string, text: string, author: string) returns (notice: Notice)
      modifies this
      ensures var c := CategoryOf(kind);
              List(c) == Toggled(old(List(c)), ItemOf(kind, text, author))
      ensures kind == "quote" ==> facts == old(facts)
      ensures kind != "quote" ==> quotes == old(quotes)
      ensures notice == Added <==> IndexOf(old(List(CategoryOf(kind))), text) == -1
      ensures counter == DisplayFavorites(old(counter), Total())
      ensures old(Valid()) ==> Valid()
    {
      var key := CategoryOf(kind);
      var item := ItemOf(kind, text, author);
      ghost var before := List(key);
      ghost var wasValid := Valid();
      var list := List(key);
      var index := IndexOf(list, text);
      if index > -1 {
        list := list[..index] + list[index + 1..];
        notice := Removed;
      } else {
        list := list + [item];
        notice := Added;
      }
      if key == Quotes {
        quotes := list;
      } else {
        facts := list;
      }
      UpdateBadge();
      if wasValid {
        ToggleKeepsUnique(before, item);
        ToggleKeepsShape(key, before, item);
      }
    }
  }

  /**
    Toggling the same absent `(type, text)` twice restores both lists, the
    total and the badge's visibility.
   */
  method ToggleTwice(store: Store, kind: string, text: string, author: string)
    requires store.Valid()
    requires IndexOf(store.List(CategoryOf(kind)), text) == -1
    modifies store
    ensures store.Valid()
    ensures store.quotes == old(store.quotes) && store.facts == old(store.facts)
    ensures store.Total() == old(store.Total())
    ensures store.counter.Shown? == old(store.counter.Shown?)
  {
    var c, item := CategoryOf(kind), ItemOf(kind, text, author);
    ToggleAbsentAppends(store.List(c), item);
    var first := store.Toggle(kind, text, author);
    assert store.List(c) == old(store.List(c)) + [item];
    var second := store.Toggle(kind, text, author);
    ToggleTwiceRestores(old(store.List(c)), item, item);
    assert store.List(c) == old(store.List(c));
  }
}
