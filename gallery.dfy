/**
 * The gallery paginator of script.js: the children of the gallery grid, the
 * "show more" button, the visibility refresh, the show-more click and the
 * add-item click.
 *
 * The grid is an ordered sequence of nodes. Gallery items carry an abstract
 * tile (their markup is opaque here) and a displayed/hidden flag; the
 * `button-div` sentinel holding the add button is also a child of the grid but
 * is excluded from every count and never restyled.
 */
module Gallery {

  /** Number of items shown before "show more" is needed. */
  const PageSize: nat := 12

  /** Opaque markup of a gallery item: one from the page, or the fixed new-project template. */
  datatype Tile = Existing(key: nat) | NewProject

  datatype Node = Item(tile: Tile, shown: bool) | ButtonDiv

  /** The two display rules the source applies to the item list. */
  datatype Display = FirstPage | Everything

  /** The item with this index among the items is displayed under rule `d`. */
  predicate Shows(d: Display, index: nat) {
    d == Everything || index < PageSize
  }

  /**
   * The item created by the add button: a gallery item with the fixed
   * new-project template and no inline display style, so it is displayed
   * until the refresh that follows decides otherwise.
   */
  function NewItem(): (n: Node)
    ensures n.Item? && n.tile == NewProject && n.shown
  {
    Item(NewProject, true)
  }

  /** The gallery items of a grid in document order, the `button-div` filtered out. */
  function Items(g: seq<Node>): (r: seq<Node>)
    ensures |r| <= |g|
    ensures forall i :: 0 <= i < |r| ==> r[i].Item?
  {
    if g == [] then []
    else Items(g[..|g| - 1]) + (if g[|g| - 1].Item? then [g[|g| - 1]] else [])
  }

  /** Number of items that are displayed. */
  function ShownCount(s: seq<Node>): nat {
    if s == [] then 0
    else ShownCount(s[..|s| - 1]) + (if s[|s| - 1].Item? && s[|s| - 1].shown then 1 else 0)
  }

  /** `g` and `h` differ at most in the display flags of their items. */
  ghost predicate SameLayout(g: seq<Node>, h: seq<Node>) {
    && |g| == |h|
    && forall p :: 0 <= p < |g| ==>
         (g[p] == ButtonDiv <==> h[p] == ButtonDiv) && (g[p].Item? ==> g[p].tile == h[p].tile)
  }

  /** The sentinel is the last child of the grid and appears nowhere else. */
  ghost predicate SentinelLast(g: seq<Node>) {
    && |g| > 0
    && g[|g| - 1] == ButtonDiv
    && forall p :: 0 <= p < |g| - 1 ==> g[p].Item?
  }

  /** The grid after every item has had its display set by rule `d`, counting items only. */
  function Restyled(g: seq<Node>, d: Display): (r: seq<Node>)
    ensures SameLayout(r, g)
  {
    if g == [] then []
    else
      var init, last := g[..|g| - 1], g[|g| - 1];
      Restyled(init, d) + [if last.Item? then Item(last.tile, Shows(d, |Items(init)|)) else ButtonDiv]
  }

  /** The grid after the visibility refresh: first page only when there are more than PageSize items. */
  function Paginated(g: seq<Node>): (r: seq<Node>)
    ensures SameLayout(r, g)
  {
    if |Items(g)| > PageSize then Restyled(g, FirstPage) else Restyled(g, Everything)
  }

  /** The grid after "show more" was clicked. */
  function Revealed(g: seq<Node>): (r: seq<Node>)
    ensures SameLayout(r, g)
  {
    Restyled(g, Everything)
  }

  /** Position of the first `button-div` child, or the length of the grid when there is none. */
  function FirstSentinel(g: seq<Node>): (k: nat)
    ensures k <= |g|
    ensures k < |g| ==> g[k] == ButtonDiv
    ensures forall p :: 0 <= p < k ==> g[p].Item?
  {
    if g == [] || g[0] == ButtonDiv then 0 else 1 + FirstSentinel(g[1..])
  }

  /** `insertBefore(x, buttonDiv)`; with no sentinel the node is appended. */
  function InsertBeforeSentinel(g: seq<Node>, x: Node): (r: seq<Node>)
    ensures |r| == |g| + 1
    ensures r[FirstSentinel(g)] == x
    ensures r[..FirstSentinel(g)] == g[..FirstSentinel(g)]
    ensures r[FirstSentinel(g) + 1..] == g[FirstSentinel(g)..]
  {
    var k := FirstSentinel(g);
    g[..k] + [x] + g[k..]
  }

  /**
   * The filter keeps exactly the gallery items of the grid (with ItemsAppend,
   * in document order) and drops the sentinel.
   */
  lemma {:induction false} ItemsMembers(g: seq<Node>)
    ensures forall x :: x in Items(g) <==> x in g && x.Item?
    ensures Items([ButtonDiv]) == []
  {
    assert [ButtonDiv][..0] == [];
    if g != [] {
      ItemsMembers(g[..|g| - 1]);
      assert g == g[..|g| - 1] + [g[|g| - 1]];
    }
  }

  lemma {:induction false} ItemsAppend(a: seq<Node>, b: seq<Node>)
    ensures Items(a + b) == Items(a) + Items(b)
    decreases |b|
  {
    if b == [] {
      assert a + b == a;
    } else {
      var b' := b[..|b| - 1];
      ItemsAppend(a, b');
      assert (a + b)[..|a + b| - 1] == a + b';
    }
  }

  lemma {:induction false} ItemsOfItems(s: seq<Node>)
    requires forall p :: 0 <= p < |s| ==> s[p].Item?
    ensures Items(s) == s
  {
    if s != [] {
      ItemsOfItems(s[..|s| - 1]);
    }
  }

  /** Restyling keeps the items, their tiles and their order, and displays item i iff rule `d` shows i. */
  lemma {:induction false} RestyledItems(g: seq<Node>, d: Display)
    ensures |Items(Restyled(g, d))| == |Items(g)|
    ensures forall i :: 0 <= i < |Items(g)| ==>
              Items(Restyled(g, d))[i] == Item(Items(g)[i].tile, Shows(d, i))
  {
    if g != [] {
      var init := g[..|g| - 1];
      RestyledItems(init, d);
      var r := Restyled(g, d);
      assert r[..|r| - 1] == Restyled(init, d);
    }
  }

  /**
   * After the refresh over N items: item i is displayed iff N <= PageSize or
   * i < PageSize; items keep their tiles and order; sentinels stay where they were.
   */
  lemma PaginatedRule(g: seq<Node>)
    ensures SameLayout(Paginated(g), g)
    ensures |Items(Paginated(g))| == |Items(g)|
    ensures forall i :: 0 <= i < |Items(g)| ==>
              && Items(Paginated(g))[i].tile == Items(g)[i].tile
              && (Items(Paginated(g))[i].shown <==> |Items(g)| <= PageSize || i < PageSize)
  {
    RestyledItems(g, FirstPage);
    RestyledItems(g, Everything);
  }

  lemma {:induction false} ShownCountOfPrefix(s: seq<Node>, k: nat)
    requires forall i :: 0 <= i < |s| ==> (s[i].Item? && s[i].shown <==> i < k)
    ensures ShownCount(s) == if |s| < k then |s| else k
  {
    if s != [] {
      ShownCountOfPrefix(s[..|s| - 1], k);
    }
  }

  /** After the refresh exactly min(N, PageSize) items are displayed. */
  lemma PaginatedShownCount(g: seq<Node>)
    ensures ShownCount(Items(Paginated(g))) == if |Items(g)| < PageSize then |Items(g)| else PageSize
  {
    PaginatedRule(g);
    var s := Items(Paginated(g));
    if |Items(g)| <= PageSize {
      ShownCountOfPrefix(s, |s|);
    } else {
      ShownCountOfPrefix(s, PageSize);
    }
  }

  /** After "show more" every item is displayed; tiles, order and sentinels are unchanged. */
  lemma RevealedShowsAll(g: seq<Node>)
    ensures SameLayout(Revealed(g), g)
    ensures |Items(Revealed(g))| == |Items(g)|
    ensures forall i :: 0 <= i < |Items(g)| ==> Items(Revealed(g))[i] == Item(Items(g)[i].tile, true)
    ensures ShownCount(Items(Revealed(g))) == |Items(g)|
  {
    RestyledItems(g, Everything);
    ShownCountOfPrefix(Items(Revealed(g)), |Items(g)|);
  }

  lemma {:induction false} SameLayoutRestyled(g: seq<Node>, h: seq<Node>, d: Display)
    requires SameLayout(g, h)
    ensures |Items(g)| == |Items(h)|
    ensures Restyled(g, d) == Restyled(h, d)
  {
    if g != [] {
      SameLayoutRestyled(g[..|g| - 1], h[..|h| - 1], d);
    }
  }

  /**
   * The refresh depends on the layout only, not on what was displayed before.
   * So it is idempotent, and a "show more" is undone by the next refresh
   * (the one an added item triggers): the reveal is not sticky.
   */
  lemma PaginatedIgnoresDisplay(g: seq<Node>, h: seq<Node>)
    requires SameLayout(g, h)
    ensures Paginated(g) == Paginated(h)
  {
    SameLayoutRestyled(g, h, FirstPage);
    SameLayoutRestyled(g, h, Everything);
  }

  lemma PaginatedIdempotent(g: seq<Node>)
    ensures Paginated(Paginated(g)) == Paginated(g)
    ensures Paginated(Revealed(g)) == Paginated(g)
  {
    PaginatedRule(g);
    PaginatedIgnoresDisplay(Paginated(g), g);
    PaginatedIgnoresDisplay(Revealed(g), g);
  }

  /**
   * Inserting an item grows the item list by one; the new item lands right
   * after the items that precede the first sentinel, and the others keep their order.
   */
  lemma InsertedItems(g: seq<Node>, x: Node)
    requires x.Item?
    ensures |InsertBeforeSentinel(g, x)| == |g| + 1
    ensures InsertBeforeSentinel(g, x)[FirstSentinel(g)] == x
    ensures Items(InsertBeforeSentinel(g, x)) == g[..FirstSentinel(g)] + [x] + Items(g[FirstSentinel(g)..])
    ensures Items(g) == g[..FirstSentinel(g)] + Items(g[FirstSentinel(g)..])
  {
    var k := FirstSentinel(g);
    ItemsOfItems(g[..k]);
    ItemsOfItems(g[..k] + [x]);
    ItemsAppend(g[..k] + [x], g[k..]);
    ItemsAppend(g[..k], g[k..]);
    assert g[..k] + g[k..] == g;
  }

  lemma SentinelLastPosition(g: seq<Node>)
    requires SentinelLast(g)
    ensures FirstSentinel(g) == |g| - 1
    ensures g[FirstSentinel(g)..] == [ButtonDiv]
    ensures Items(g) == g[..|g| - 1]
  {
    var k := FirstSentinel(g);
    assert g == g[..k] + [ButtonDiv];
    ItemsOfItems(g[..k]);
    ItemsAppend(g[..k], [ButtonDiv]);
    assert Items([ButtonDiv]) == [] by {
      assert [ButtonDiv][..0] == [];
    }
  }

  /** A run of items followed by the sentinel has the sentinel last, and its items are that run. */
  lemma ItemsThenSentinel(front: seq<Node>)
    requires forall p :: 0 <= p < |front| ==> front[p].Item?
    ensures SentinelLast(front + [ButtonDiv])
    ensures Items(front + [ButtonDiv]) == front
  {
    var r := front + [ButtonDiv];
    assert r[..|r| - 1] == front;
    ItemsOfItems(front);
  }

  /** With the sentinel last, the new item becomes the last item and the sentinel stays last. */
  lemma InsertedBeforeLastSentinel(g: seq<Node>, x: Node)
    requires SentinelLast(g) && x.Item?
    ensures InsertBeforeSentinel(g, x) == g[..|g| - 1] + [x] + [ButtonDiv]
    ensures SentinelLast(InsertBeforeSentinel(g, x))
    ensures Items(InsertBeforeSentinel(g, x)) == Items(g) + [x]
  {
    SentinelLastPosition(g);
    var front := g[..|g| - 1] + [x];
    assert InsertBeforeSentinel(g, x) == front + [ButtonDiv];

    forall p | 0 <= p < |front| ensures front[p].Item? {
      if p < |g| - 1 { assert front[p] == g[p]; }
    }
    ItemsThenSentinel(front);
    assert Items(InsertBeforeSentinel(g, x)) == front == Items(g) + [x];
  }

  /**
   * Clicking "add" on a grid whose sentinel is last: the sentinel stays last,
   * the N old items keep their tiles and order, the new item is item N, and
   * the refresh rule holds for N + 1 items.
   */
  lemma AddedItemLayout(g: seq<Node>)
    requires SentinelLast(g)
    ensures var g' := Paginated(InsertBeforeSentinel(g, NewItem()));
      && SentinelLast(g')
      && |Items(g')| == |Items(g)| + 1
      && (forall i :: 0 <= i < |Items(g)| ==> Items(g')[i].tile == Items(g)[i].tile)
      && Items(g')[|Items(g)|].tile == NewProject
      && forall i :: 0 <= i < |Items(g')| ==>
           (Items(g')[i].shown <==> |Items(g')| <= PageSize || i < PageSize)
  {
    var h := InsertBeforeSentinel(g, NewItem());
    InsertedBeforeLastSentinel(g, NewItem());
    PaginatedRule(h);
  }

  /** The gallery grid and the "show more" button of the page. */
  class GalleryGrid {
    var grid: seq<Node>
    var showMore: bool

    /** Page load: the markup's grid, then the refresh the script runs once at load. */
    constructor Load(markup: seq<Node>)
      ensures grid == Paginated(markup)
      ensures showMore == (|Items(markup)| > PageSize)
    {
      grid, showMore := markup, false;
      new;
      UpdateVisibility();
    }

    /** The `forEach` over the filtered items: item number `index` gets rule `d`. */
    method Restyle(d: Display)
      modifies this
      ensures grid == Restyled(old(grid), d)
      ensures showMore == old(showMore)
    {
      ghost var g := grid;
      var p, index := 0, 0;
      while p < |grid|
        invariant |grid| == |g| && p <= |g|
        invariant index == |Items(g[..p])|
        invariant grid[..p] == Restyled(g[..p], d)
        invariant grid[p..] == g[p..]
        invariant showMore == old(showMore)
      {
        assert grid[p] == g[p] by { assert grid[p..][0] == g[p..][0]; }
        assert g[..p + 1][..p] == g[..p];
        ghost var before := grid;
        if grid[p].Item? {
          grid := grid[p := Item(grid[p].tile, Shows(d, index))];
          index := index + 1;
        }
        assert grid[p + 1..] == before[p + 1..] == g[p + 1..];
        p := p + 1;
      }
      assert grid == grid[..p] && g == g[..p];
    }

    /** `updateGalleryVisibility`. */
    method UpdateVisibility()
      modifies this
      ensures grid == Paginated(old(grid))
      ensures showMore == (|Items(old(grid))| > PageSize)
    {
      var items := Items(grid);
      if |items| > PageSize {
        Restyle(FirstPage);
        showMore := true;
      } else {
        Restyle(Everything);
        showMore := false;
      }
    }

    /** The "show more" click handler. */
    method ShowMoreClicked()
      modifies this
      ensures grid == Revealed(old(grid))
      ensures !showMore
    {
      Restyle(Everything);
      showMore := false;
    }

    /** The add-button click handler: a new item before `button-div`, then the refresh. */
    method AddItemClicked()
      modifies this
      ensures grid == Paginated(InsertBeforeSentinel(old(grid), NewItem()))
      ensures showMore == (|Items(old(grid))| + 1 > PageSize)
      ensures SentinelLast(old(grid)) ==> SentinelLast(grid)
    {
      ghost var g := grid;
      var buttonDiv := FirstSentinel(grid);
      grid := grid[..buttonDiv] + [NewItem()] + grid[buttonDiv..];
      InsertedItems(g, NewItem());
      ItemsAppend(g[..buttonDiv], g[buttonDiv..]);
      assert g[..buttonDiv] + g[buttonDiv..] == g;
      UpdateVisibility();
      if SentinelLast(g) {
        AddedItemLayout(g);
      }
    }
  }
}
