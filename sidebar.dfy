/** The product filter sidebar: it owns the price range the slider shows, and
    turns a committed range into the `priceRange` filter token. The filters
    object the page passes down (with its `setFilters` callback) is the field
    `filters`, keyed by filter name. */
module FilterSidebar {
  import opened Common
  import opened PriceSlider
  import PriceToken

  /** The slider's props in the sidebar: min 0, max 10000, step 100. */
  const PriceDomain: Domain := Domain(0, 10000, 100)

  /** The initial `priceRange` state. */
  const InitialRange: Range := Range(0, 10000)

  /** `{ ...filters, [key]: value }`: one key set, every other key kept. */
  function SetFilter(filters: map<string, string>, key: string, value: string): (r: map<string, string>)
    ensures r.Keys == filters.Keys + {key}
    ensures r[key] == value
    ensures forall k :: k in filters && k != key ==> r[k] == filters[k]
  {
    filters[key := value]
  }

  /** A pointer 37% of the way along the price track selects 3700. */
  lemma PriceSnapExample()
    ensures Stepped(PriceDomain, 0.37) == 3700
  {
    assert RawValue(PriceDomain, 0.37) == 3700.0;
    assert Round(3700.0 / 100.0) == 37;
  }

  /** One pointer-move event: the pointer's x and the track's geometry. */
  datatype Pointer = Pointer(x: real, trackLeft: real, trackWidth: real)

  /** Where one pointer move puts the range while `thumb` is dragged: the
      dragged handle goes to the snapped value under the pointer, within the
      handler's bounds. */
  function MoveTo(thumb: Thumb, r: Range, m: Pointer): (next: Range)
    requires m.trackWidth >= 0.0
    ensures Separated(PriceDomain, r) ==> Separated(PriceDomain, next)
    ensures thumb == MinThumb ==> next.high == r.high
    ensures thumb == MaxThumb ==> next.low == r.low
  {
    DragTo(PriceDomain, thumb, r, Stepped(PriceDomain, Fraction(m.x - m.trackLeft, m.trackWidth)))
  }

  /** The range a drag of `thumb` leaves after `moves`, taken one move at a
      time from `r`. Only the dragged handle ever moves, and an ordered range
      stays ordered. */
  function Replay(thumb: Thumb, r: Range, moves: seq<Pointer>): (last: Range)
    requires forall i :: 0 <= i < |moves| ==> moves[i].trackWidth >= 0.0
    ensures Separated(PriceDomain, r) ==> Separated(PriceDomain, last)
    ensures thumb == MinThumb ==> last.high == r.high
    ensures thumb == MaxThumb ==> last.low == r.low
    decreases |moves|
  {
    if moves == [] then r
    else MoveTo(thumb, Replay(thumb, r, moves[..|moves| - 1]), moves[|moves| - 1])
  }

  /** Moves replay in order: a gesture split in two continues from where its
      first part left the range. */
  lemma {:induction false} ReplayConcat(thumb: Thumb, r: Range, a: seq<Pointer>, b: seq<Pointer>)
    requires forall i :: 0 <= i < |a| ==> a[i].trackWidth >= 0.0
    requires forall i :: 0 <= i < |b| ==> b[i].trackWidth >= 0.0
    ensures forall i :: 0 <= i < |a + b| ==> (a + b)[i].trackWidth >= 0.0
    ensures Replay(thumb, r, a + b) == Replay(thumb, Replay(thumb, r, a), b)
    decreases |b|
  {
    assert forall i :: 0 <= i < |a + b| ==> (a + b)[i] == if i < |a| then a[i] else b[i - |a|];
    if b == [] {
      assert a + b == a;
    } else {
      var b' := b[..|b| - 1];
      assert (a + b)[..|a + b| - 1] == a + b';
      ReplayConcat(thumb, r, a, b');
    }
  }

  /** A repeated pointer position moves nothing the second time. */
  lemma ReplayRepeatedMove(thumb: Thumb, r: Range, moves: seq<Pointer>, m: Pointer)
    requires forall i :: 0 <= i < |moves| ==> moves[i].trackWidth >= 0.0
    requires m.trackWidth >= 0.0
    ensures forall i :: 0 <= i < |moves + [m]| ==> (moves + [m])[i].trackWidth >= 0.0
    ensures forall i :: 0 <= i < |moves + [m, m]| ==> (moves + [m, m])[i].trackWidth >= 0.0
    ensures Replay(thumb, r, moves + [m, m]) == Replay(thumb, r, moves + [m])
  {
    assert forall i :: 0 <= i < |moves + [m]| ==> (moves + [m])[i] == if i < |moves| then moves[i] else m;
    assert forall i :: 0 <= i < |moves + [m, m]| ==> (moves + [m, m])[i] == if i < |moves| then moves[i] else m;
    assert (moves + [m, m])[..|moves| + 1] == moves + [m];
    assert (moves + [m])[..|moves|] == moves;
    DragToIdempotent(PriceDomain, thumb, Replay(thumb, r, moves),
                     Stepped(PriceDomain, Fraction(m.x - m.trackLeft, m.trackWidth)));
  }

  class ProductFilterSidebar {
    /** The `priceRange` state. */
    var priceRange: Range
    /** The filters object above the sidebar. */
    var filters: map<string, string>
    /** The price slider the sidebar renders. */
    const slider: DualRangeSlider

    /** Both the owner's range and the slider's snapshot of it keep the
        ordering invariant of the price domain. */
    ghost predicate Valid()
      reads this, slider
    {
      && slider.domain == PriceDomain
      && Separated(PriceDomain, priceRange)
      && Separated(PriceDomain, slider.valueRef)
    }

    constructor (filters: map<string, string>)
      ensures Valid() && fresh(slider)
      ensures priceRange == InitialRange && this.filters == filters
      ensures slider.valueRef == InitialRange && slider.dragging == Idle
    {
      priceRange := InitialRange;
      this.filters := filters;
      slider := new DualRangeSlider(PriceDomain, InitialRange);
    }

    /** `handleFilterChange(key, value)`. */
    method FilterChange(key: string, value: string)
      modifies this`filters
      ensures filters == SetFilter(old(filters), key, value)
    {
      filters := SetFilter(filters, key, value);
    }

    /** A re-render: the slider's `valueRef` catches up with `priceRange`. */
    method Render()
      requires Valid()
      modifies slider`valueRef
      ensures Valid()
      ensures slider.valueRef == priceRange && slider.dragging == old(slider.dragging)
    {
      slider.Render(priceRange);
    }

    /** A press on one of the slider's thumbs. */
    method PressThumb(thumb: Thumb)
      modifies slider`dragging
      ensures slider.dragging == Dragging(thumb)
    {
      slider.Press(thumb);
    }

    /** A window pointer move: a change the slider emits replaces `priceRange`
        (`onValueChange={setPriceRange}`). */
    method PointerMove(p: Pointer) returns (change: Option<Range>)
      requires Valid()
      requires p.trackWidth >= 0.0
      modifies this`priceRange
      ensures Valid()
      ensures change.Some? ==> priceRange == change.value
      ensures change.None? ==> priceRange == old(priceRange)
      ensures slider.dragging == Idle ==> change == None
      ensures slider.dragging.Dragging? ==>
        var next := DragTo(PriceDomain, slider.dragging.thumb, slider.valueRef,
                           Stepped(PriceDomain, Fraction(p.x - p.trackLeft, p.trackWidth)));
        change == if next == slider.valueRef then None else Some(next)
    {
      change := slider.Move(p.x, p.trackLeft, p.trackWidth);
      if change.Some? {
        priceRange := change.value;
      }
    }

    /** A window pointer-up: a committed value becomes the `priceRange` filter
        token; no other filter changes. */
    method PointerUp() returns (commit: Option<Range>)
      requires Valid()
      modifies this`filters, slider`dragging
      ensures Valid()
      ensures slider.dragging == Idle
      ensures old(slider.dragging).Dragging? ==> commit == Some(slider.valueRef)
      ensures old(slider.dragging) == Idle ==> commit == None
      ensures commit.Some? ==> filters == SetFilter(old(filters), "priceRange", PriceToken.Encode(commit.value))
      ensures commit.None? ==> filters == old(filters)
    {
      commit := slider.Release();
      if commit.Some? {
        FilterChange("priceRange", PriceToken.Encode(commit.value));
      }
    }

    /** A whole drag gesture: a press, a render after every change, and a
        release. The committed range is the replay of the moves from the
        range the gesture started on; it stays ordered throughout, and
        exactly one commit writes it as the filter token. */
    method DragGesture(thumb: Thumb, moves: seq<Pointer>) returns (committed: Range)
      requires Valid()
      requires slider.valueRef == priceRange
      requires forall i :: 0 <= i < |moves| ==> moves[i].trackWidth >= 0.0
      modifies this, slider
      ensures Valid()
      ensures committed == priceRange == slider.valueRef
      ensures committed == Replay(thumb, old(priceRange), moves)
      ensures Separated(PriceDomain, committed)
      ensures filters == SetFilter(old(filters), "priceRange", PriceToken.Encode(committed))
      ensures slider.dragging == Idle
    {
      PressThumb(thumb);
      var i := 0;
      while i < |moves|
        invariant 0 <= i <= |moves|
        invariant Valid()
        invariant slider.valueRef == priceRange
        invariant slider.dragging == Dragging(thumb)
        invariant filters == old(filters)
        invariant priceRange == Replay(thumb, old(priceRange), moves[..i])
      {
        var change := PointerMove(moves[i]);
        if change.Some? {
          Render();
        }
        assert moves[..i + 1][..i] == moves[..i];
        i := i + 1;
      }
      assert moves[..|moves|] == moves;
      var commit := PointerUp();
      committed := commit.value;
    }
  }

  /** An end-to-end run: from (0, 10000), pressing the min thumb and
      moving to 20% of a 100-pixel track emits (2000, 10000); the release
      commits it once, as the token "2000-10000", and a second release
      commits nothing. */
  method EndToEnd() returns (change: Option<Range>, commit: Option<Range>, again: Option<Range>, token: string)
    ensures change == Some(Range(2000, 10000))
    ensures commit == change && again == None
    ensures token == "2000-10000"
  {
    var sidebar := new ProductFilterSidebar(map[]);
    sidebar.PressThumb(MinThumb);
    assert Fraction(20.0, 100.0) == 0.2;
    assert RawValue(PriceDomain, 0.2) == 2000.0;
    assert Round(20.0) == 20;
    assert Stepped(PriceDomain, 0.2) == 2000;
    change := sidebar.PointerMove(Pointer(20.0, 0.0, 100.0));
    sidebar.Render();
    commit := sidebar.PointerUp();
    again := sidebar.PointerUp();
    token := sidebar.filters["priceRange"];
  }
}
