/** The ordering game (src/components/games/RankOrder.tsx): up to six
    equations are shown shuffled, the player drags them into order, and a
    check compares the live order, item by item, with a stable ascending
    sort by value. */
module RankOrder {
  import opened Questions

  const MaxItems: nat := 6

  /** An item; its id `item-${i}` is kept as the number i. */
  datatype RankItem = RankItem(id: nat, display: string, value: int)

  /** The items before shuffling: one per question among the first six,
      item i showing question i and its answer. */
  function MakeItems(questions: seq<MathQuestion>): (items: seq<RankItem>)
    ensures |items| == if |questions| < MaxItems then |questions| else MaxItems
    ensures forall i :: 0 <= i < |items| ==>
              items[i] == RankItem(i, questions[i].display, questions[i].answer)
  {
    var n := if |questions| < MaxItems then |questions| else MaxItems;
    seq(n, i requires 0 <= i < n => RankItem(i, questions[i].display, questions[i].answer))
  }

  predicate DistinctIds(items: seq<RankItem>)
  {
    forall i, j :: 0 <= i < j < |items| ==> items[i].id != items[j].id
  }

  lemma MakeItemsDistinct(questions: seq<MathQuestion>)
    ensures DistinctIds(MakeItems(questions))
  {
  }

  predicate NonDecreasing(items: seq<RankItem>)
  {
    forall i, j :: 0 <= i < j < |items| ==> items[i].value <= items[j].value
  }

  /** The items of value `v`, in their order in `items`. */
  function WithValue(items: seq<RankItem>, v: int): seq<RankItem>
  {
    if items == [] then []
    else (if items[0].value == v then [items[0]] else []) + WithValue(items[1..], v)
  }

  /** Insertion into an ascending list, before the first item whose value
      is not smaller, so that `x` precedes the items of equal value. */
  function Insert(x: RankItem, s: seq<RankItem>): (r: seq<RankItem>)
    ensures |r| == |s| + 1
    ensures multiset(r) == multiset(s) + multiset{x}
    ensures forall y :: y in r ==> y in s || y == x
  {
    if s == [] || x.value <= s[0].value then [x] + s
    else
      assert s == [s[0]] + s[1..];
      [s[0]] + Insert(x, s[1..])
  }

  lemma {:induction false} InsertSorted(x: RankItem, s: seq<RankItem>)
    requires NonDecreasing(s)
    ensures NonDecreasing(Insert(x, s))
    decreases |s|
  {
    if s != [] && s[0].value < x.value {
      var rest := Insert(x, s[1..]);
      InsertSorted(x, s[1..]);
      assert forall y :: y in s[1..] ==> s[0].value <= y.value;
      assert forall y :: y in rest ==> s[0].value <= y.value;
      assert Insert(x, s) == [s[0]] + rest;
    }
  }

  /** `[...items].sort((a, b) => a.value - b.value)`: a stable ascending
      sort by value, written as insertion sort. */
  function SortByValue(items: seq<RankItem>): (r: seq<RankItem>)
    ensures |r| == |items|
    ensures multiset(r) == multiset(items)
    ensures NonDecreasing(r)
  {
    if items == [] then []
    else
      assert items == [items[0]] + items[1..];
      InsertSorted(items[0], SortByValue(items[1..]));
      Insert(items[0], SortByValue(items[1..]))
  }

  lemma {:induction false} InsertKeepsEqualOrder(x: RankItem, s: seq<RankItem>, v: int)
    ensures WithValue(Insert(x, s), v) == WithValue([x] + s, v)
    decreases |s|
  {
    if s == [] || x.value <= s[0].value {
    } else {
      var rest := Insert(x, s[1..]);
      InsertKeepsEqualOrder(x, s[1..], v);
      assert ([s[0]] + rest)[0] == s[0] && ([s[0]] + rest)[1..] == rest;
      assert ([x] + s)[0] == x && ([x] + s)[1..] == s;
      assert ([x] + s[1..])[0] == x && ([x] + s[1..])[1..] == s[1..];
    }
  }

  /** The sort is stable: the items of any one value keep their order. */
  lemma {:induction false} SortIsStable(items: seq<RankItem>, v: int)
    ensures WithValue(SortByValue(items), v) == WithValue(items, v)
    decreases |items|
  {
    if items != [] {
      var rest := SortByValue(items[1..]);
      SortIsStable(items[1..], v);
      InsertKeepsEqualOrder(items[0], rest, v);
      assert ([items[0]] + rest)[0] == items[0] && ([items[0]] + rest)[1..] == rest;
    }
  }

  /** Items already in order are their own correct order. */
  lemma {:induction false} SortedFixpoint(items: seq<RankItem>)
    requires NonDecreasing(items)
    ensures SortByValue(items) == items
    decreases |items|
  {
    if items != [] {
      SortedFixpoint(items[1..]);
      assert items == [items[0]] + items[1..];
    }
  }

  /** Any two ascending lists that hold the items of every value in the
      same order are equal: stability and order fix the result, so the
      insertion sort gives what every stable ascending sort gives. */
  lemma {:induction false} StableSortUnique(a: seq<RankItem>, b: seq<RankItem>)
    requires NonDecreasing(a) && NonDecreasing(b)
    requires forall v :: WithValue(a, v) == WithValue(b, v)
    ensures a == b
    decreases |a|
  {
    SameValuesNonEmpty(a, b);
    SameValuesNonEmpty(b, a);
    if a != [] && b != [] {
      var m := a[0].value;
      MinFirst(a, b[0].value);
      MinFirst(b, m);
      assert WithValue(b, m) != [] by { WithValueHas(a, 0, m); }
      assert WithValue(a, b[0].value) != [] by { WithValueHas(b, 0, b[0].value); }
      assert b[0].value == m;
      assert WithValue(a, m)[0] == a[0] && WithValue(b, m)[0] == b[0];
      assert a[0] == b[0];
      forall v
        ensures WithValue(a[1..], v) == WithValue(b[1..], v)
      {
        var head := if a[0].value == v then [a[0]] else [];
        assert WithValue(a, v) == head + WithValue(a[1..], v);
        assert WithValue(b, v) == head + WithValue(b[1..], v);
        assert WithValue(a[1..], v) == (head + WithValue(a[1..], v))[|head|..];
        assert WithValue(b[1..], v) == (head + WithValue(b[1..], v))[|head|..];
      }
      StableSortUnique(a[1..], b[1..]);
      assert a == [a[0]] + a[1..] && b == [b[0]] + b[1..];
    }
  }

  /** The correct order is the one any stable ascending sort of the items
      produces, whatever its algorithm. */
  lemma CorrectOrderIsStableSort(items: seq<RankItem>, t: seq<RankItem>)
    requires NonDecreasing(t) && forall v :: WithValue(t, v) == WithValue(items, v)
    ensures t == SortByValue(items)
  {
    forall v
      ensures WithValue(t, v) == WithValue(SortByValue(items), v)
    {
      SortIsStable(items, v);
    }
    StableSortUnique(t, SortByValue(items));
  }

  /** Lists holding the same items of every value are both empty or both
      not. */
  lemma SameValuesNonEmpty(a: seq<RankItem>, b: seq<RankItem>)
    requires forall v :: WithValue(a, v) == WithValue(b, v)
    ensures b != [] ==> a != []
  {
    if b != [] {
      WithValueHas(b, 0, b[0].value);
      assert WithValue(a, b[0].value) != [];
    }
  }

  /** In an ascending list nothing of value `v` lies below the head's
      value, so finding `v` bounds the head. */
  lemma {:induction false} MinFirst(a: seq<RankItem>, v: int)
    requires NonDecreasing(a) && a != [] && WithValue(a, v) != []
    ensures a[0].value <= v
  {
    var k := WithValueIndex(a, v);
    assert a[k].value == v;
  }

  lemma {:induction false} WithValueHas(a: seq<RankItem>, k: nat, v: int)
    requires k < |a| && a[k].value == v
    ensures WithValue(a, v) != []
    decreases k
  {
    if k > 0 {
      WithValueHas(a[1..], k - 1, v);
    }
  }

  /** An index where the value `v` occurs, when it occurs. */
  function WithValueIndex(a: seq<RankItem>, v: int): (k: nat)
    requires WithValue(a, v) != []
    ensures k < |a| && a[k].value == v
  {
    if a[0].value == v then 0 else 1 + WithValueIndex(a[1..], v)
  }

  /** With distinct ids no item occurs twice. */
  lemma {:induction false} DistinctIdsOnce(items: seq<RankItem>, x: RankItem)
    requires DistinctIds(items)
    ensures multiset(items)[x] <= 1
    decreases |items|
  {
    if items != [] {
      assert items == [items[0]] + items[1..];
      DistinctIdsOnce(items[1..], x);
      if x == items[0] {
        assert x !in items[1..];
      }
    }
  }

  lemma {:induction false} TwiceCounted(b: seq<RankItem>, i: nat, j: nat)
    requires i < j < |b| && b[i] == b[j]
    ensures multiset(b)[b[i]] >= 2
  {
    assert b == b[..j] + [b[j]] + b[j+1..];
    assert b[i] in b[..j];
  }

  /** Every rearrangement of items with distinct ids has distinct ids. */
  lemma PermutationKeepsDistinctIds(a: seq<RankItem>, b: seq<RankItem>)
    requires multiset(a) == multiset(b) && DistinctIds(a)
    ensures DistinctIds(b)
  {
    forall i, j | 0 <= i < j < |b|
      ensures b[i].id != b[j].id
    {
      if b[i] == b[j] {
        TwiceCounted(b, i, j);
        DistinctIdsOnce(a, b[i]);
      } else {
        assert b[i] in multiset(a) && b[j] in multiset(a);
        var p :| 0 <= p < |a| && a[p] == b[i];
        var q :| 0 <= q < |a| && a[q] == b[j];
        assert p != q;
      }
    }
  }

  /** `handleCheck`'s comparison: every item has the id of the item at the
      same position of the correct order. */
  predicate Check(items: seq<RankItem>)
  {
    var correctOrder := SortByValue(items);
    forall i :: 0 <= i < |items| ==> items[i].id == correctOrder[i].id
  }

  /** The check passes exactly when the live order is ascending by value;
      items of equal value pass in either order. */
  lemma CheckIffSorted(items: seq<RankItem>)
    requires DistinctIds(items)
    ensures Check(items) <==> NonDecreasing(items)
  {
    var sorted := SortByValue(items);
    if NonDecreasing(items) {
      SortedFixpoint(items);
    }
    if Check(items) {
      forall i | 0 <= i < |items|
        ensures sorted[i] == items[i]
      {
        assert sorted[i] in multiset(items);
        var p :| 0 <= p < |items| && items[p] == sorted[i];
        assert p == i;
      }
      assert sorted == items;
    }
  }

  /** Two items of equal value and different ids pass in both orders. */
  lemma EqualValuesEitherOrder(a: RankItem, b: RankItem)
    requires a.value == b.value && a.id != b.id
    ensures Check([a, b]) && Check([b, a])
  {
    assert DistinctIds([a, b]) && NonDecreasing([a, b]);
    CheckIffSorted([a, b]);
    assert DistinctIds([b, a]) && NonDecreasing([b, a]);
    CheckIffSorted([b, a]);
  }

  /** `correctOrder.findIndex(c => c.id === id)`: the first position
      holding the id, or -1. */
  function FindIndex(order: seq<RankItem>, id: nat): (r: int)
    ensures -1 <= r < |order|
    ensures r == -1 <==> forall k :: 0 <= k < |order| ==> order[k].id != id
    ensures r >= 0 ==> order[r].id == id && forall k :: 0 <= k < r ==> order[k].id != id
  {
    if order == [] then -1
    else if order[0].id == id then 0
    else
      var r := FindIndex(order[1..], id);
      if r == -1 then -1 else r + 1
  }

  /** The colour of the item at one position. */
  datatype Mark = Neutral | InPlace | Misplaced

  /** The feedback at position `index`: none before a check, then whether
      the item's index in the correct order is its own. */
  function PositionMark(items: seq<RankItem>, isChecked: bool, index: nat): Mark
    requires index < |items|
  {
    if !isChecked then Neutral
    else if FindIndex(SortByValue(items), items[index].id) == index then InPlace
    else Misplaced
  }

  /** After a check, the item at position `i` is marked in place exactly
      when the correct order holds that same item at `i`. */
  lemma MarkInPlaceIff(items: seq<RankItem>, i: nat)
    requires DistinctIds(items) && i < |items|
    ensures PositionMark(items, true, i) == InPlace <==> SortByValue(items)[i] == items[i]
    ensures SortByValue(items)[i].id == items[i].id <==> SortByValue(items)[i] == items[i]
  {
    var sorted := SortByValue(items);
    PermutationKeepsDistinctIds(items, sorted);
    if sorted[i].id == items[i].id {
      assert sorted[i] in multiset(items);
      var p :| 0 <= p < |items| && items[p] == sorted[i];
      assert p == i;
    }
    var f := FindIndex(sorted, items[i].id);
    if sorted[i] == items[i] {
      assert f != -1;
      assert f == i;
    }
  }

  /** The check passed exactly when every item is marked in place. */
  lemma MarksMatchCheck(items: seq<RankItem>)
    requires DistinctIds(items)
    ensures Check(items) <==> forall i :: 0 <= i < |items| ==> PositionMark(items, true, i) == InPlace
  {
    forall i | 0 <= i < |items|
      ensures PositionMark(items, true, i) == InPlace <==> SortByValue(items)[i].id == items[i].id
    {
      MarkInPlaceIff(items, i);
    }
  }

  /** The component's state fields; `resultPending` says the 2000 ms
      timeout started by a passed check has not fired. */
  datatype RState = RState(
    items: seq<RankItem>,
    isChecked: bool,
    isCorrect: bool,
    showResult: bool,
    resultPending: bool)

  /** The items are always a rearrangement of the first six questions'
      items, and the result is only ever pending or shown after a check
      that passed. */
  predicate Consistent(s: RState, questions: seq<MathQuestion>)
  {
    && multiset(s.items) == multiset(MakeItems(questions))
    && DistinctIds(s.items)
    && (s.showResult || s.resultPending ==> s.isChecked && s.isCorrect)
  }

  /** The state on mount, with `shuffled` the order the shuffle produced. */
  function Initial(shuffled: seq<RankItem>): RState
  {
    RState(shuffled, false, false, false, false)
  }

  lemma InitialConsistent(questions: seq<MathQuestion>, shuffled: seq<RankItem>)
    requires multiset(shuffled) == multiset(MakeItems(questions))
    ensures Consistent(Initial(shuffled), questions)
  {
    MakeItemsDistinct(questions);
    PermutationKeepsDistinctIds(MakeItems(questions), shuffled);
  }

  /** `handleCheck`, offered while unchecked: records whether the live
      order is ascending and, if so, starts the result timeout; the items
      do not move. */
  function HandleCheck(s: RState, questions: seq<MathQuestion>): (r: RState)
    requires Consistent(s, questions) && !s.isChecked
    ensures Consistent(r, questions)
    ensures r.isChecked && r.items == s.items && !r.showResult
    ensures r.isCorrect <==> NonDecreasing(s.items)
    ensures r.resultPending == r.isCorrect
  {
    CheckIffSorted(s.items);
    var correct := Check(s.items);
    s.(isCorrect := correct, isChecked := true, resultPending := correct)
  }

  /** `handleTryAgain`, offered after a failed check: only the checked
      flag is cleared. */
  function TryAgain(s: RState, questions: seq<MathQuestion>): (r: RState)
    requires Consistent(s, questions) && s.isChecked && !s.isCorrect
    ensures Consistent(r, questions)
    ensures r == s.(isChecked := false) && !r.isChecked && r.items == s.items
  {
    s.(isChecked := false)
  }

  /** `onReorder`: the list takes the dragged order. Dragging stays
      possible after a check, and the flags are kept. */
  function Reorder(s: RState, questions: seq<MathQuestion>, newOrder: seq<RankItem>): (r: RState)
    requires Consistent(s, questions) && multiset(newOrder) == multiset(s.items)
    ensures Consistent(r, questions)
    ensures r.items == newOrder && r == s.(items := newOrder)
  {
    PermutationKeepsDistinctIds(s.items, newOrder);
    s.(items := newOrder)
  }

  /** The 2000 ms timeout of a passed check: the result screen. */
  function ResultTimeout(s: RState, questions: seq<MathQuestion>): (r: RState)
    requires Consistent(s, questions) && s.resultPending
    ensures Consistent(r, questions)
    ensures r.showResult && !r.resultPending && r.items == s.items
  {
    s.(showResult := true, resultPending := false)
  }

  /** A drag moves items only while the list is shown; the check button
      is shown unchecked, the try-again button after a failed check. */
  datatype Event = CheckClick | TryAgainClick | Drag(newOrder: seq<RankItem>) | ResultFires

  function Step(s: RState, questions: seq<MathQuestion>, e: Event): RState
    requires Consistent(s, questions)
  {
    match e
    case CheckClick => if !s.isChecked then HandleCheck(s, questions) else s
    case TryAgainClick => if s.isChecked && !s.isCorrect then TryAgain(s, questions) else s
    case Drag(order) =>
      if !s.showResult && multiset(order) == multiset(s.items) then Reorder(s, questions, order) else s
    case ResultFires => if s.resultPending then ResultTimeout(s, questions) else s
  }

  /** Any session keeps the items a rearrangement of the initial ones,
      and shows the result only after a check that passed. */
  function Run(s: RState, questions: seq<MathQuestion>, events: seq<Event>): (r: RState)
    requires Consistent(s, questions)
    ensures Consistent(r, questions)
    ensures multiset(r.items) == multiset(s.items)
    ensures r.showResult ==> r.isChecked && r.isCorrect
    ensures s.showResult ==> r.showResult
    decreases |events|
  {
    if events == [] then s
    else Run(Step(s, questions, events[0]), questions, events[1..])
  }

  /** The component: the shuffled items, the check flags and the handlers. */
  class RankOrderGame {
    const questions: seq<MathQuestion>
    var items: seq<RankItem>
    var isChecked: bool
    var isCorrect: bool
    var showResult: bool
    var resultPending: bool

    function State(): RState
      reads this
    {
      RState(items, isChecked, isCorrect, showResult, resultPending)
    }

    predicate Valid()
      reads this
    {
      Consistent(State(), questions)
    }

    /** Mounting; `shuffled` is the order `sort(() => Math.random() - 0.5)`
        produced, which is some rearrangement of the items. */
    constructor (questions: seq<MathQuestion>, shuffled: seq<RankItem>)
      requires multiset(shuffled) == multiset(MakeItems(questions))
      ensures State() == Initial(shuffled) && this.questions == questions
      ensures Valid()
    {
      InitialConsistent(questions, shuffled);
      this.questions := questions;
      items := shuffled;
      isChecked := false;
      isCorrect := false;
      showResult := false;
      resultPending := false;
    }

    method OnCheck()
      requires Valid() && !isChecked
      modifies this
      ensures State() == HandleCheck(old(State()), questions)
      ensures Valid()
    {
      var correct := Check(items);
      isCorrect := correct;
      isChecked := true;
      if correct {
        resultPending := true;
      }
    }

    method OnTryAgain()
      requires Valid() && isChecked && !isCorrect
      modifies this
      ensures State() == TryAgain(old(State()), questions)
      ensures Valid()
    {
      isChecked := false;
    }

    method OnReorder(newOrder: seq<RankItem>)
      requires Valid() && multiset(newOrder) == multiset(items)
      modifies this
      ensures State() == Reorder(old(State()), questions, newOrder)
      ensures Valid()
    {
      items := newOrder;
    }

    method OnResultTimeout()
      requires Valid() && resultPending
      modifies this
      ensures State() == ResultTimeout(old(State()), questions)
      ensures Valid()
    {
      resultPending := false;
      showResult := true;
    }
  }
}
