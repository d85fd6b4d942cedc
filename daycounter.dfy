/** The day counter of main.cpp: items that fall due a number of days or
    weeks after the day they were added, and a day that advances by one.
    `unsigned int` is taken to be 32 bits wide, and all its arithmetic wraps
    modulo 2^32. The console input and output are not part of this model:
    the menu choice and the entered text come in as parameters, and what
    would be printed comes back as a result. */
module DayCounter {
  import opened GoValues

  /** The `TimeType` enumeration. */
  datatype TimeType = NoType | Day | Week | Month | Year

  /** An `ItemStructure`. */
  datatype Item = Item(name: string, startDay: uint32, endDay: uint32)

  /** main.cpp:105-111: "d" or "D" is days, "w" or "W" is weeks, anything
      else is no type; months and years are never chosen. */
  function FindTimeType(text: string): (t: TimeType)
    ensures t == Day <==> text == "d" || text == "D"
    ensures t == Week <==> text == "w" || text == "W"
    ensures t == NoType <==> !(text == "d" || text == "D" || text == "w" || text == "W")
    ensures t != Month && t != Year
  {
    if text == "d" || text == "D" then Day
    else if text == "w" || text == "W" then Week
    else NoType
  }

  /** main.cpp:113-126: the number of days in `amount` units. */
  function ConvertTime(amount: uint32, t: TimeType): (days: uint32)
    ensures t == Day ==> days == amount
    ensures t == Week ==> days == (7 * amount) % TWO32
    ensures t == Week && 7 * amount < TWO32 ==> days == 7 * amount
    ensures t != Day && t != Week ==> days == 0
  {
    match t
    case Day => amount
    case Week => U32(amount * 7)
    case _ => 0
  }

  /** main.cpp:88: `endDay - currentDay < 1` in unsigned arithmetic. An
      item is reported on the day it falls due and on no other: the
      unsigned difference of a day already past wraps to a large number. */
  function Expired(item: Item, currentDay: uint32): (r: bool)
    ensures r <==> item.endDay == currentDay
    ensures item.endDay < currentDay ==> !r
  {
    U32(item.endDay - currentDay) < 1
  }

  /** main.cpp:81: the days shown as remaining, in unsigned arithmetic. */
  function Remaining(item: Item, currentDay: uint32): (days: uint32)
    ensures currentDay <= item.endDay ==> days == item.endDay - currentDay
    ensures currentDay > item.endDay ==> days == TWO32 - (currentDay - item.endDay)
  {
    U32(item.endDay - currentDay)
  }

  /** The names `checkItemsExpired` prints, in item order. */
  function ExpiredNames(items: seq<Item>, currentDay: uint32): (names: seq<string>)
    ensures |names| <= |items|
  {
    if items == [] then []
    else
      var last := items[|items| - 1];
      ExpiredNames(items[..|items| - 1], currentDay) + (if Expired(last, currentDay) then [last.name] else [])
  }

  /** A name is printed exactly when some item of that name is due today. */
  lemma {:induction false} ExpiredNamesIff(items: seq<Item>, currentDay: uint32, name: string)
    ensures name in ExpiredNames(items, currentDay) <==>
      exists i :: 0 <= i < |items| && items[i].name == name && items[i].endDay == currentDay
  {
    if items != [] {
      var init := items[..|items| - 1];
      var last := items[|items| - 1];
      ExpiredNamesIff(init, currentDay, name);
      if exists i :: 0 <= i < |init| && init[i].name == name && init[i].endDay == currentDay {
        var i :| 0 <= i < |init| && init[i].name == name && init[i].endDay == currentDay;
        assert items[i] == init[i];
      }
      if exists i :: 0 <= i < |items| && items[i].name == name && items[i].endDay == currentDay {
        var i :| 0 <= i < |items| && items[i].name == name && items[i].endDay == currentDay;
        if i < |init| {
          assert init[i] == items[i];
        }
      }
    }
  }

  /** main.cpp:85-92. */
  method CheckItemsExpired(items: seq<Item>, currentDay: uint32) returns (reported: seq<string>)
    ensures reported == ExpiredNames(items, currentDay)
    ensures forall name {:trigger name in reported} :: name in reported <==>
      exists i :: 0 <= i < |items| && items[i].name == name && items[i].endDay == currentDay
  {
    reported := [];
    for i := 0 to |items|
      invariant reported == ExpiredNames(items[..i], currentDay)
    {
      assert items[..i + 1][..i] == items[..i];
      if U32(items[i].endDay - currentDay) < 1 {
        reported := reported + [items[i].name];
      }
    }
    assert items[..|items|] == items;
    forall name {:trigger name in reported}
      ensures name in reported <==>
        exists i :: 0 <= i < |items| && items[i].name == name && items[i].endDay == currentDay
    {
      ExpiredNamesIff(items, currentDay, name);
    }
  }

  /** The items and the day of the loop of `main`. */
  class Tracker {
    var items: seq<Item>
    var currentDay: uint32

    /** main.cpp:28-32. */
    constructor ()
      ensures items == [] && currentDay == 0
    {
      items := [];
      currentDay := 0;
    }

    /** Menu option 1 (main.cpp:51-64): an item that starts today and ends
        the converted number of days later, in unsigned arithmetic. */
    method AddItem(name: string, typeText: string, amount: uint32)
      modifies this
      ensures items == old(items) + [Item(name, old(currentDay), Due(old(currentDay), amount, FindTimeType(typeText)))]
      ensures currentDay == old(currentDay)
    {
      var t := FindTimeType(typeText);
      var days := ConvertTime(amount, t);
      var endDay := U32(currentDay + days);
      items := items + [Item(name, currentDay, endDay)];
    }

    /** Menu option 2 (main.cpp:65-68): the day advances by one, with
        `unsigned int` wrap-around; the items stay as they were. */
    method AdvanceDay()
      modifies this
      ensures currentDay == U32(old(currentDay) + 1)
      ensures items == old(items)
    {
      currentDay := U32(currentDay + 1);
    }
  }

  /** The day an item added on `start` falls due. */
  function Due(start: uint32, amount: uint32, t: TimeType): uint32 {
    U32(start + ConvertTime(amount, t))
  }
}
