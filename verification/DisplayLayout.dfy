/** positions() of tools/laptop-display.py: outputs from left to right, physical ones first. */
module DisplayLayout {
  import opened Text

  type Name = string

  /** QUEST-n, with or without the prefix of a virtual output. */
  predicate IsQuest(name: Name) {
    StartsWith(if StartsWith(name, "Virtual-") then name[|"Virtual-"|..] else name, "QUEST-")
  }

  /** Exactly two kinds of name are those of Quest outputs. */
  lemma QuestNames(name: Name)
    ensures IsQuest(name) <==> "QUEST-" <= name || "Virtual-QUEST-" <= name
  {
    if "Virtual-" <= name {
      var tail := name[8..];
      assert name == "Virtual-" + tail && name[0] == 'V';
      BehindPrefix("Virtual-", "QUEST-", tail);
    }
  }

  lemma BehindPrefix(a: string, b: string, tail: string)
    ensures a + b <= a + tail <==> b <= tail
  {
    if b <= tail {
      assert a + tail == a + b + tail[|b|..];
    }
    if a + b <= a + tail {
      forall i | 0 <= i < |b|
        ensures tail[i] == b[i]
      {
        assert (a + tail)[|a| + i] == (a + b)[|a| + i];
      }
    }
  }

  /** An output as listed, with its logical width. */
  datatype Listed = Listed(name: Name, enabled: bool, width: nat)
  datatype Placed = Placed(name: Name, x: nat)

  function Insert(o: Listed, sorted: seq<Listed>): (r: seq<Listed>) {
    if sorted == [] then [o]
    else if Before(sorted[0].name, o.name) then [sorted[0]] + Insert(o, sorted[1..])
    else [o] + sorted
  }

  function Sort(outputs: seq<Listed>): (r: seq<Listed>) {
    if outputs == [] then [] else Insert(outputs[0], Sort(outputs[1..]))
  }

  /** The outputs that are or will be on, physical ones or Quest ones. */
  function Shown(current: seq<Listed>, extra: set<Name>, quest: bool): (r: seq<Listed>) {
    if current == [] then []
    else
      var rest := Shown(current[1..], extra, quest);
      if (current[0].enabled || current[0].name in extra) && IsQuest(current[0].name) == quest
          then [current[0]] + rest else rest
  }

  function Ordered(current: seq<Listed>, extra: set<Name>): (r: seq<Listed>) {
    Sort(Shown(current, extra, false)) + Sort(Shown(current, extra, true))
  }

  function WidthBefore(ordered: seq<Listed>, i: nat): (x: nat)
    requires i <= |ordered|
  {
    if i == 0 then 0 else WidthBefore(ordered, i - 1) + ordered[i - 1].width
  }

  /** Each output where the one before it ends. */
  function Laid(ordered: seq<Listed>, n: nat): (args: seq<Placed>)
    requires n <= |ordered|
  {
    if n == 0 then [] else Laid(ordered, n - 1) + [Placed(ordered[n - 1].name, WidthBefore(ordered, n - 1))]
  }

  /** positions(): from left to right. */
  method Positions(current: seq<Listed>, extra: set<Name>) returns (args: seq<Placed>)
    ensures var ordered := Ordered(current, extra); args == Laid(ordered, |ordered|)
  {
    hide Ordered;
    var ordered := Ordered(current, extra);
    args := [];
    var x, i := 0, 0;
    while i < |ordered|
      invariant i <= |ordered| && x == WidthBefore(ordered, i) && args == Laid(ordered, i)
    {
      args := args + [Placed(ordered[i].name, x)];
      x := x + ordered[i].width;
      i := i + 1;
    }
  }

  /** Output i is named as ordered, and starts where the widths of all before it end. */
  lemma {:induction false} LaidAt(ordered: seq<Listed>, n: nat, i: nat)
    requires i < n <= |ordered|
    ensures |Laid(ordered, n)| == n && Laid(ordered, n)[i] == Placed(ordered[i].name, WidthBefore(ordered, i))
    decreases n
  {
    LaidLength(ordered, n - 1);
    if i < n - 1 {
      LaidAt(ordered, n - 1, i);
    }
  }

  lemma {:induction false} LaidLength(ordered: seq<Listed>, n: nat)
    requires n <= |ordered|
    ensures |Laid(ordered, n)| == n
  {
    if n > 0 {
      LaidLength(ordered, n - 1);
    }
  }

  lemma {:induction false} LaterStartsBehind(ordered: seq<Listed>, i: nat, j: nat)
    requires i < j <= |ordered|
    ensures WidthBefore(ordered, j) >= WidthBefore(ordered, i) + ordered[i].width
    decreases j
  {
    if i < j - 1 {
      LaterStartsBehind(ordered, i, j - 1);
    }
  }

  /** No two outputs overlap, whatever their widths. */
  lemma OutputsNeverOverlap(ordered: seq<Listed>, i: nat, j: nat)
    requires i < j < |ordered|
    ensures WidthBefore(ordered, i) + ordered[i].width <= WidthBefore(ordered, j)
  {
    LaterStartsBehind(ordered, i, j);
  }

  /** All origins differ, if and only if every output but the last has a positive width. */
  lemma OriginsAreDistinct(ordered: seq<Listed>)
    ensures (forall i: nat, j: nat :: i < j < |ordered| ==> WidthBefore(ordered, i) != WidthBefore(ordered, j))
            <==> forall i: nat :: i < |ordered| - 1 ==> ordered[i].width > 0
  {
    if forall i: nat :: i < |ordered| - 1 ==> ordered[i].width > 0 {
      forall i: nat, j: nat | i < j < |ordered|
        ensures WidthBefore(ordered, i) != WidthBefore(ordered, j)
      {
        LaterStartsBehind(ordered, i, j);
      }
    } else {
      var i: nat :| i < |ordered| - 1 && ordered[i].width == 0;
      var j: nat := i + 1;
      assert WidthBefore(ordered, j) == WidthBefore(ordered, i) + ordered[i].width;
    }
  }

  function Count(outputs: seq<Listed>, o: Listed): (n: nat) {
    if outputs == [] then 0 else (if outputs[0] == o then 1 else 0) + Count(outputs[1..], o)
  }

  lemma {:induction false} CountAppend(a: seq<Listed>, b: seq<Listed>, o: Listed)
    ensures Count(a + b, o) == Count(a, o) + Count(b, o)
  {
    if a == [] {
      assert a + b == b;
    } else {
      assert (a + b)[1..] == a[1..] + b;
      CountAppend(a[1..], b, o);
    }
  }

  lemma {:induction false} InsertCounts(x: Listed, sorted: seq<Listed>, o: Listed)
    ensures Count(Insert(x, sorted), o) == Count(sorted, o) + if x == o then 1 else 0
  {
    if sorted != [] && Before(sorted[0].name, x.name) {
      InsertCounts(x, sorted[1..], o);
      assert ([sorted[0]] + Insert(x, sorted[1..]))[1..] == Insert(x, sorted[1..]);
    } else {
      assert ([x] + sorted)[1..] == sorted;
      assert Insert(x, sorted) == [x] + sorted;
    }
  }

  lemma {:induction false} SortCounts(outputs: seq<Listed>, o: Listed)
    ensures Count(Sort(outputs), o) == Count(outputs, o)
  {
    if outputs != [] {
      SortCounts(outputs[1..], o);
      InsertCounts(outputs[0], Sort(outputs[1..]), o);
    }
  }

  lemma {:induction false} ShownCounts(current: seq<Listed>, extra: set<Name>, quest: bool, o: Listed)
    ensures Count(Shown(current, extra, quest), o)
            == if (o.enabled || o.name in extra) && IsQuest(o.name) == quest then Count(current, o) else 0
  {
    if current != [] {
      ShownCounts(current[1..], extra, quest, o);
      var rest := Shown(current[1..], extra, quest);
      assert ([current[0]] + rest)[1..] == rest;
    }
  }

  /** Every output that is or will be on is placed exactly as often as it is listed, and no other is. */
  lemma ExactlyTheShownArePlaced(current: seq<Listed>, extra: set<Name>, o: Listed)
    ensures Count(Ordered(current, extra), o) == if o.enabled || o.name in extra then Count(current, o) else 0
  {
    var physical, quest := Shown(current, extra, false), Shown(current, extra, true);
    CountAppend(Sort(physical), Sort(quest), o);
    SortCounts(physical, o);
    SortCounts(quest, o);
    ShownCounts(current, extra, false, o);
    ShownCounts(current, extra, true, o);
  }

  lemma {:induction false} CountOf(outputs: seq<Listed>, o: Listed)
    ensures Count(outputs, o) > 0 <==> o in outputs
  {
    if outputs != [] {
      CountOf(outputs[1..], o);
    }
  }

  ghost predicate InOrder(outputs: seq<Listed>) {
    forall i :: 0 < i < |outputs| ==> !Before(outputs[i].name, outputs[i - 1].name)
  }

  lemma {:induction false} InsertKeepsOrder(x: Listed, sorted: seq<Listed>)
    requires InOrder(sorted)
    ensures InOrder(Insert(x, sorted))
    ensures Insert(x, sorted)[0] == x || (sorted != [] && Insert(x, sorted)[0] == sorted[0])
  {
    if sorted != [] && Before(sorted[0].name, x.name) {
      OneIsBefore(sorted[0].name, x.name);
      InsertKeepsOrder(x, sorted[1..]);
    }
  }

  lemma {:induction false} SortIsInOrder(outputs: seq<Listed>)
    ensures InOrder(Sort(outputs))
  {
    if outputs != [] {
      SortIsInOrder(outputs[1..]);
      InsertKeepsOrder(outputs[0], Sort(outputs[1..]));
    }
  }

  lemma {:induction false} OrderedApart(outputs: seq<Listed>, i: nat, j: nat)
    requires InOrder(outputs) && i < j < |outputs|
    ensures !Before(outputs[j].name, outputs[i].name)
    decreases j
  {
    if i < j - 1 {
      OrderedApart(outputs, i, j - 1);
      var a, b, c := outputs[i].name, outputs[j - 1].name, outputs[j].name;
      OneIsBefore(a, b);
      OneIsBefore(b, c);
      if Before(c, a) && a != b && b != c {
        BeforeIsTransitive(a, b, c);
        OneIsBefore(a, c);
      }
    }
  }

  lemma SortedGroup(current: seq<Listed>, extra: set<Name>, quest: bool, k: nat)
    requires k < |Sort(Shown(current, extra, quest))|
    ensures IsQuest(Sort(Shown(current, extra, quest))[k].name) == quest
  {
    var shown := Shown(current, extra, quest);
    var o := Sort(shown)[k];
    CountOf(Sort(shown), o);
    SortCounts(shown, o);
    ShownCounts(current, extra, quest, o);
  }

  /** From left to right: every physical output stands before every Quest one, and each kind goes by name. */
  lemma PhysicalFirstThenByName(current: seq<Listed>, extra: set<Name>, i: nat, j: nat)
    requires i < j < |Ordered(current, extra)|
    ensures var left, right := Ordered(current, extra)[i].name, Ordered(current, extra)[j].name;
      && (IsQuest(left) ==> IsQuest(right))
      && (IsQuest(left) == IsQuest(right) ==> !Before(right, left))
  {
    hide IsQuest, Before, Sort, Shown;
    var physical, quest := Sort(Shown(current, extra, false)), Sort(Shown(current, extra, true));
    var n := |physical|;
    assert Ordered(current, extra) == physical + quest;
    SortIsInOrder(Shown(current, extra, false));
    SortIsInOrder(Shown(current, extra, true));
    if j < n {
      SortedGroup(current, extra, false, i);
      SortedGroup(current, extra, false, j);
      OrderedApart(physical, i, j);
    } else {
      SortedGroup(current, extra, true, j - n);
      if i < n {
        SortedGroup(current, extra, false, i);
      } else {
        SortedGroup(current, extra, true, i - n);
        OrderedApart(quest, i - n, j - n);
      }
    }
  }
}
