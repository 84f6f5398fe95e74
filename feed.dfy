/**
 * Feed items and the rule that decides which of them are new.
 *
 * Timestamps are integers; `ZeroTime` stands for Go's zero `time.Time`
 * (what `IsZero` tests and what a missing watermark reads as).
 */
module Feed {
  import opened Wrappers

  /** One parsed feed entry; `published` is None when the feed gave no publish time. */
  datatype Item = Item(title: string, content: string, published: Option<int>)

  const ZeroTime: int := 0

  /** The item has a publish time strictly after the watermark (`PublishedParsed.After`). */
  predicate IsNew(x: Item, watermark: int)
  {
    x.published.Some? && x.published.value > watermark
  }

  /** The new items of `s`, in feed (index) order. */
  function Filter(s: seq<Item>, w: int): seq<Item>
  {
    if s == [] then []
    else (if IsNew(s[0], w) then [s[0]] else []) + Filter(s[1..], w)
  }

  function Reverse<T>(s: seq<T>): (r: seq<T>)
    ensures |r| == |s|
  {
    if s == [] then [] else Reverse(s[1..]) + [s[0]]
  }

  /**
   * The new items of `s` in the order the selection loop meets them:
   * from the last index down to index 0.
   */
  function Processed(s: seq<Item>, w: int): seq<Item>
  {
    if s == [] then []
    else Processed(s[1..], w) + (if IsNew(s[0], w) then [s[0]] else [])
  }

  /**
   * The value `newPublishedAt` holds after the loop over `s`: the publish
   * time of the last item selected in processing order, which is the new
   * item with the lowest index, or the zero time when none is new.
   */
  function NewPublishedAt(s: seq<Item>, w: int): int
  {
    if s == [] then ZeroTime
    else if IsNew(s[0], w) then s[0].published.value
    else NewPublishedAt(s[1..], w)
  }

  /** The watermark stored after a run whose writes succeed: updated only when `newPublishedAt` is not zero. */
  function NextWatermark(s: seq<Item>, w: int): int
  {
    var n := NewPublishedAt(s, w);
    if n != ZeroTime then n else w
  }

  /** Timestamped items appear newest first (non-increasing time by index). */
  predicate NewestFirst(s: seq<Item>)
  {
    forall i, j :: 0 <= i < j < |s| && s[i].published.Some? && s[j].published.Some? ==>
      s[i].published.value >= s[j].published.value
  }

  /** Timestamped items appear oldest first (non-decreasing time by index). */
  predicate Chronological(s: seq<Item>)
  {
    forall i, j :: 0 <= i < j < |s| && s[i].published.Some? && s[j].published.Some? ==>
      s[i].published.value <= s[j].published.value
  }

  // ---------------------------------------------------------------------
  // Properties of the selection
  // ---------------------------------------------------------------------

  /** An item is selected exactly when it is in the feed and is new. */
  lemma {:induction false} FilterMembership(s: seq<Item>, w: int, x: Item)
    ensures x in Filter(s, w) <==> x in s && IsNew(x, w)
  {
    if s != [] {
      FilterMembership(s[1..], w, x);
      assert s == [s[0]] + s[1..];
    }
  }

  /** Same for the processing order. */
  lemma {:induction false} ProcessedMembership(s: seq<Item>, w: int, x: Item)
    ensures x in Processed(s, w) <==> x in s && IsNew(x, w)
  {
    if s != [] {
      ProcessedMembership(s[1..], w, x);
      assert s == [s[0]] + s[1..];
    }
  }

  /** An item whose time equals the watermark is never selected: the comparison is strict. */
  lemma BoundaryExcluded(s: seq<Item>, w: int, x: Item)
    requires x.published == Some(w)
    ensures x !in Filter(s, w) && x !in Processed(s, w)
  {
  }

  lemma {:induction false} ReverseAppend<T>(a: seq<T>, b: seq<T>)
    ensures Reverse(a + b) == Reverse(b) + Reverse(a)
  {
    if a == [] {
      assert a + b == b;
    } else {
      assert (a + b)[1..] == a[1..] + b;
      ReverseAppend(a[1..], b);
    }
  }

  /** Processing order is the reverse of the new items in feed order. */
  lemma {:induction false} ProcessedIsReversedFilter(s: seq<Item>, w: int)
    ensures Processed(s, w) == Reverse(Filter(s, w))
  {
    if s != [] {
      var h := if IsNew(s[0], w) then [s[0]] else [];
      ProcessedIsReversedFilter(s[1..], w);
      ReverseAppend(h, Filter(s[1..], w));
      assert Reverse(h) == h;
    }
  }

  /**
   * `newPublishedAt` is the zero time when nothing is selected, and
   * otherwise the time of the selected item with the lowest index.
   */
  lemma {:induction false} NewPublishedAtIsLowestSelected(s: seq<Item>, w: int)
    ensures Filter(s, w) == [] ==> NewPublishedAt(s, w) == ZeroTime
    ensures Filter(s, w) != [] ==> Filter(s, w)[0].published == Some(NewPublishedAt(s, w))
    ensures Processed(s, w) != [] ==> Processed(s, w)[|Processed(s, w)| - 1].published == Some(NewPublishedAt(s, w))
  {
    if s != [] {
      NewPublishedAtIsLowestSelected(s[1..], w);
    }
  }

  /**
   * Whenever something is selected, `newPublishedAt` is strictly after the
   * watermark; from a non-negative watermark it is zero exactly when
   * nothing is selected.
   */
  lemma {:induction false} WatermarkAdvances(s: seq<Item>, w: int)
    ensures Filter(s, w) != [] ==> NewPublishedAt(s, w) > w
    ensures NextWatermark(s, w) >= w
    ensures 0 <= w ==> (NewPublishedAt(s, w) == ZeroTime <==> Filter(s, w) == [])
  {
    NewPublishedAtIsLowestSelected(s, w);
    if Filter(s, w) != [] {
      FilterMembership(s, w, Filter(s, w)[0]);
    }
  }

  /**
   * An item without a publish time, wherever it sits, changes neither what
   * is selected, nor the processing order, nor `newPublishedAt`.
   */
  lemma {:induction false} UntimedItemIgnored(a: seq<Item>, x: Item, b: seq<Item>, w: int)
    requires x.published.None?
    ensures Filter(a + [x] + b, w) == Filter(a + b, w)
    ensures Processed(a + [x] + b, w) == Processed(a + b, w)
    ensures NewPublishedAt(a + [x] + b, w) == NewPublishedAt(a + b, w)
  {
    if a == [] {
      assert a + [x] + b == [x] + b;
      assert ([x] + b)[1..] == b;
      assert a + b == b;
    } else {
      assert (a + [x] + b)[0] == a[0];
      assert (a + [x] + b)[1..] == a[1..] + [x] + b;
      assert (a + b)[0] == a[0];
      assert (a + b)[1..] == a[1..] + b;
      UntimedItemIgnored(a[1..], x, b, w);
    }
  }

  lemma NewestFirstTail(s: seq<Item>)
    requires s != [] && NewestFirst(s)
    ensures NewestFirst(s[1..])
  {
  }

  /** In a newest-first feed, every timestamped item of the tail is no newer than the head. */
  lemma NewestFirstHead(s: seq<Item>, x: Item)
    requires s != [] && NewestFirst(s) && s[0].published.Some?
    requires x in s[1..] && x.published.Some?
    ensures x.published.value <= s[0].published.value
  {
  }

  /** In a newest-first feed the written watermark is at least every selected time. */
  lemma {:induction false} NewestFirstCovers(s: seq<Item>, w: int)
    requires NewestFirst(s)
    ensures forall x :: x in Filter(s, w) ==> x.published.Some? && x.published.value <= NewPublishedAt(s, w)
  {
    if s != [] {
      NewestFirstTail(s);
      NewestFirstCovers(s[1..], w);
      if IsNew(s[0], w) {
        forall x | x in Filter(s[1..], w)
          ensures x.published.Some? && x.published.value <= s[0].published.value
        {
          FilterMembership(s[1..], w, x);
          NewestFirstHead(s, x);
        }
      }
    }
  }

  /**
   * In a newest-first feed, selecting again against the watermark a run
   * leaves behind selects nothing (from a non-negative watermark).
   */
  lemma RerunSelectsNothing(s: seq<Item>, w: int)
    requires NewestFirst(s) && 0 <= w
    ensures Filter(s, NextWatermark(s, w)) == []
  {
    WatermarkAdvances(s, w);
    if Filter(s, w) != [] {
      var n := NewPublishedAt(s, w);
      NewestFirstCovers(s, w);
      if Filter(s, n) != [] {
        var y := Filter(s, n)[0];
        FilterMembership(s, n, y);
        FilterMembership(s, w, y);
        assert false;
      }
    }
  }

  /** In a newest-first feed the items are processed, and so delivered, oldest first. */
  lemma {:induction false} NewestFirstDeliversChronologically(s: seq<Item>, w: int)
    requires NewestFirst(s)
    ensures Chronological(Processed(s, w))
  {
    if s != [] {
      NewestFirstTail(s);
      NewestFirstDeliversChronologically(s[1..], w);
      var p := Processed(s[1..], w);
      if IsNew(s[0], w) {
        var q := p + [s[0]];
        forall i, j | 0 <= i < j < |q| && q[i].published.Some? && q[j].published.Some?
          ensures q[i].published.value <= q[j].published.value
        {
          if j < |p| {
            assert q[i] == p[i] && q[j] == p[j];
          } else {
            assert q[i] == p[i] && p[i] in p;
            ProcessedMembership(s[1..], w, p[i]);
            NewestFirstHead(s, p[i]);
          }
        }
      }
    }
  }

  /**
   * The stored watermark is the time of the last item processed, not the
   * largest selected time: on an oldest-first feed a re-run selects again.
   */
  lemma WatermarkIsNotTheMaximum()
    ensures var s := [Item("old", "", Some(1)), Item("new", "", Some(2))];
      NewPublishedAt(s, ZeroTime) == 1 && Filter(s, NextWatermark(s, ZeroTime)) == [s[1]]
  {
  }

  /**
   * A newest-first feed at times 3, 2, 1 against watermark 1: the items at
   * 2 and 3 are processed in that order, and the new watermark is 3.
   */
  lemma NewestFirstExample()
    ensures var s := [Item("c", "", Some(3)), Item("b", "", Some(2)), Item("a", "", Some(1))];
      Processed(s, 1) == [s[1], s[0]] && NewPublishedAt(s, 1) == 3
  {
  }
}
