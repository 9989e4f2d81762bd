/**
 * The pull-request list view: an ordered list of items, an optional hovered row that
 * moves up and down with wrap-around, a dirty flag, and the column layout of its rows.
 */
module PullRequests {
  import opened Models
  import opened Events

  /*
   * Moving the hover.
   */

  /**
   * Where `hover_down` puts the hover on a list of `len` items. With a hover set, the
   * source computes `len - 1`, which fails on an empty list, hence the precondition.
   * On a hover inside the list this is the next row, wrapping from the last to the first.
   */
  function HoverDownIndex(hovered: Option<nat>, len: nat): (r: Option<nat>)
    requires hovered.Some? ==> len > 0
    ensures r.Some?
    ensures len > 0 ==> r.value < len
  {
    match hovered
    case None => Some(0)
    case Some(idx) =>
      if idx < len - 1 then Some(idx + 1) else Some(0)
  }

  /**
   * Where `hover_up` puts the hover. Unset or on the first row, it goes to the last row,
   * computed as `len - 1`, which fails on an empty list; otherwise it moves up one row.
   * On a hover inside the list this is the previous row, wrapping from the first to the last.
   */
  function HoverUpIndex(hovered: Option<nat>, len: nat): (r: Option<nat>)
    requires len > 0 || (hovered.Some? && hovered.value > 0)
    ensures r.Some?
    ensures (hovered.Some? ==> hovered.value <= len) ==> r.value < len
  {
    match hovered
    case None => Some(len - 1)
    case Some(idx) =>
      if idx <= 0 then Some(len - 1) else Some(idx - 1)
  }

  /** A first move down selects the first row; inside the list a move down is the next row modulo the length. */
  lemma HoverDownWraps(i: nat, len: nat)
    requires i < len
    ensures HoverDownIndex(None, len) == Some(0)
    ensures HoverDownIndex(Some(i), len) == Some((i + 1) % len)
  {
    if i + 1 < len {
      ModUnique(i + 1, 0, i + 1, len);
    } else {
      ModUnique(i + 1, 1, 0, len);
    }
  }

  /**
   * A first move up selects the last row; inside the list a move up is the previous row
   * modulo the length; above the first row it is always one row up.
   */
  lemma HoverUpWraps(i: nat, len: nat)
    requires len > 0
    ensures HoverUpIndex(None, len) == Some(len - 1)
    ensures i < len ==> HoverUpIndex(Some(i), len) == Some((i + len - 1) % len)
    ensures i > 0 ==> HoverUpIndex(Some(i), len) == Some(i - 1)
  {
    if i == 0 {
      ModUnique(len - 1, 0, len - 1, len);
    } else if i < len {
      ModUnique(i + len - 1, 1, i - 1, len);
    }
  }

  /** Up then down, and down then up, put a hover inside the list back where it was. */
  lemma HoverUpDownInverse(i: nat, len: nat)
    requires i < len
    ensures HoverDownIndex(HoverUpIndex(Some(i), len), len) == Some(i)
    ensures HoverUpIndex(HoverDownIndex(Some(i), len), len) == Some(i)
  {
    if i == 0 {
      assert HoverUpIndex(Some(i), len) == Some(len - 1);
    }
    if i == len - 1 {
      assert HoverDownIndex(Some(i), len) == Some(0);
    }
  }

  /** The hover after `k` moves down, starting from `hovered`. */
  function HoverDownTimes(hovered: Option<nat>, len: nat, k: nat): Option<nat>
    requires len > 0
  {
    if k == 0 then hovered else HoverDownIndex(HoverDownTimes(hovered, len, k - 1), len)
  }

  /** Moving down cycles through the whole list: k moves from row i land on row (i + k) mod len. */
  lemma {:induction false} HoverDownCycles(i: nat, len: nat, k: nat)
    requires i < len
    ensures HoverDownTimes(Some(i), len, k) == Some((i + k) % len)
  {
    if k > 0 {
      HoverDownCycles(i, len, k - 1);
      var j := (i + k - 1) % len;
      HoverDownWraps(j, len);
      ModSucc(i + k - 1, len);
    }
  }

  lemma ModSucc(a: nat, len: nat)
    requires len > 0
    ensures (a % len + 1) % len == (a + 1) % len
  {
    var q, r := a / len, a % len;
    assert a == q * len + r;
    if r + 1 == len {
      ModUnique(a + 1, q + 1, 0, len);
    } else {
      ModUnique(a + 1, q, r + 1, len);
    }
    ModUnique(r + 1, if r + 1 == len then 1 else 0, if r + 1 == len then 0 else r + 1, len);
  }

  /** The remainder is determined by any quotient-remainder decomposition. */
  lemma ModUnique(a: nat, q: nat, r: nat, len: nat)
    requires len > 0 && r < len && a == q * len + r
    ensures a % len == r
  {
    var q', r' := a / len, a % len;
    assert a == q' * len + r';
    if q' < q {
      assert q' * len + len <= q * len by { MultipleMonotone(len, q' + 1, q); }
    } else if q < q' {
      assert q * len + len <= q' * len by { MultipleMonotone(len, q + 1, q'); }
    }
  }

  /** A multiple of m with more copies is at least as large. */
  lemma MultipleMonotone(m: nat, a: nat, b: nat)
    requires a <= b
    ensures a * m <= b * m
  {
    assert b * m == a * m + (b - a) * m;
  }

  /*
   * The list view's state and its response to events.
   */

  /** The fields of a list view, as a value. */
  datatype ListState = ListState(items: seq<PullRequest>, hovered: Option<nat>, dirty: bool)

  /** The event can be handled without an arithmetic failure in `hover_up` / `hover_down`. */
  predicate CanHandle(s: ListState, e: Event)
  {
    match e
    case Move(Up) => |s.items| > 0 || (s.hovered.Some? && s.hovered.value > 0)
    case Move(Down) => s.hovered.Some? ==> |s.items| > 0
    case _ => true
  }

  /**
   * `handle_event`: Up and Down move the hover and mark the view dirty; every other event
   * (Left, Right, Quit, Back) leaves the view exactly as it was. Items never change.
   */
  function Handled(s: ListState, e: Event): (r: ListState)
    requires CanHandle(s, e)
    ensures r.items == s.items
    ensures e == Move(Up) ==> r == s.(hovered := HoverUpIndex(s.hovered, |s.items|), dirty := true)
    ensures e == Move(Down) ==> r == s.(hovered := HoverDownIndex(s.hovered, |s.items|), dirty := true)
    ensures e != Move(Up) && e != Move(Down) ==> r == s
  {
    match e
    case Move(Up) => s.(hovered := HoverUpIndex(s.hovered, |s.items|), dirty := true)
    case Move(Down) => s.(hovered := HoverDownIndex(s.hovered, |s.items|), dirty := true)
    case _ => s
  }

  /** The hover is unset or names an existing row. */
  predicate HoverInRange(s: ListState)
  {
    s.hovered.Some? ==> s.hovered.value < |s.items|
  }

  /** On a non-empty list every event can be handled, and the hover stays on an existing row. */
  lemma HandledKeepsHoverInRange(s: ListState, e: Event)
    requires |s.items| > 0 && HoverInRange(s)
    ensures CanHandle(s, e)
    ensures HoverInRange(Handled(s, e))
  {
  }

  /** What rendering does to the state: the view is clean afterwards, nothing else changes. */
  function Rendered(s: ListState): (r: ListState)
    ensures !r.dirty && r.items == s.items && r.hovered == s.hovered
  {
    s.(dirty := false)
  }

  /*
   * Column layout of the rendered rows.
   */

  function DigitChar(d: nat): (c: char)
    requires d < 10
    ensures '0' <= c <= '9'
  {
    (('0' as int) + d) as char
  }

  function DigitValue(c: char): nat
  {
    if '0' <= c <= '9' then (c as int - '0' as int) else 0
  }

  /** The decimal text of a number, as `to_string` produces it: digits only, no leading zero. */
  function DecimalString(n: nat): (s: string)
    ensures |s| >= 1
    ensures forall i :: 0 <= i < |s| ==> '0' <= s[i] <= '9'
    ensures |s| > 1 ==> s[0] != '0'
    decreases n
  {
    if n < 10 then [DigitChar(n)] else DecimalString(n / 10) + [DigitChar(n % 10)]
  }

  /** Reads a string of decimal digits back as a number. */
  function ParseDecimal(s: string): nat
  {
    if s == [] then 0 else ParseDecimal(s[..|s| - 1]) * 10 + DigitValue(s[|s| - 1])
  }

  /** Reading the decimal text of a number gives the number back. */
  lemma {:induction false} ParseDecimalString(n: nat)
    ensures ParseDecimal(DecimalString(n)) == n
    decreases n
  {
    var s := DecimalString(n);
    if n >= 10 {
      ParseDecimalString(n / 10);
      assert s[..|s| - 1] == DecimalString(n / 10);
    }
  }

  function Pow10(k: nat): nat
  {
    if k == 0 then 1 else 10 * Pow10(k - 1)
  }

  /** A number of k decimal digits lies in [10^(k-1), 10^k) (0 is the one-digit exception). */
  lemma {:induction false} DecimalLength(n: nat)
    ensures n < Pow10(|DecimalString(n)|)
    ensures |DecimalString(n)| > 1 ==> Pow10(|DecimalString(n)| - 1) <= n
    decreases n
  {
    if n >= 10 {
      DecimalLength(n / 10);
    }
  }

  /** The text of one column of a row: number, title, owner login, state. */
  function Field(item: PullRequest, column: nat): (text: string)
    requires column < 4
    ensures column == 0 ==> |text| >= 1 && ParseDecimal(text) == item.number
    ensures column == 1 ==> text == item.title
    ensures column == 2 ==> text == item.login
    ensures column == 3 ==> text == item.state
  {
    match column
    case 0 => ParseDecimalString(item.number); DecimalString(item.number)
    case 1 => item.title
    case 2 => item.login
    case 3 => item.state
  }

  function Max(a: nat, b: nat): nat
  {
    if a < b then b else a
  }

  /**
   * The width of a column: the left fold of `max` over the items' field lengths, from 0.
   * It is the longest field of the column, or 0 for an empty list.
   */
  function ColumnWidth(items: seq<PullRequest>, column: nat): (w: nat)
    requires column < 4
    ensures forall i :: 0 <= i < |items| ==> |Field(items[i], column)| <= w
    ensures |items| == 0 ==> w == 0
    ensures |items| > 0 ==> exists i :: 0 <= i < |items| && w == |Field(items[i], column)|
  {
    if |items| == 0 then 0
    else
      var init := items[..|items| - 1];
      assert forall i :: 0 <= i < |init| ==> init[i] == items[i];
      Max(ColumnWidth(init, column), |Field(items[|items| - 1], column)|)
  }

  /** The four column widths that `render` computes before drawing. */
  function ColumnWidths(items: seq<PullRequest>): (widths: seq<nat>)
    ensures |widths| == 4
    ensures forall k :: 0 <= k < 4 ==> widths[k] == ColumnWidth(items, k)
  {
    [ColumnWidth(items, 0), ColumnWidth(items, 1), ColumnWidth(items, 2), ColumnWidth(items, 3)]
  }

  function Spaces(n: nat): (s: string)
    ensures |s| == n && forall i :: 0 <= i < n ==> s[i] == ' '
  {
    if n == 0 then [] else Spaces(n - 1) + [' ']
  }

  /** Left-aligned formatting to a minimum width: the text, then spaces; never truncated. */
  function PadRight(s: string, width: nat): (r: string)
    ensures |r| == Max(|s|, width)
    ensures r[..|s|] == s
    ensures forall i :: |s| <= i < |r| ==> r[i] == ' '
  {
    if |s| < width then s + Spaces(width - |s|) else s
  }

  /** The text of one row (colours left out): `#`, then the four padded fields separated by spaces. */
  function Line(item: PullRequest, widths: seq<nat>): (line: string)
    requires |widths| == 4
    ensures |line| >= 4 + widths[0] + widths[1] + widths[2] + widths[3]
    ensures line[0] == '#'
  {
    "#" + PadRight(Field(item, 0), widths[0]) + " " + PadRight(Field(item, 1), widths[1])
    + " " + PadRight(Field(item, 2), widths[2]) + " " + PadRight(Field(item, 3), widths[3])
  }

  /**
   * Column alignment: with the widths `render` computes, every field of a column is padded
   * to exactly the column's width, so every row has the same length and every column
   * starts at the same offset.
   */
  lemma LinesAligned(items: seq<PullRequest>, i: nat)
    requires i < |items|
    ensures var w := ColumnWidths(items);
            && (forall k :: 0 <= k < 4 ==> |PadRight(Field(items[i], k), w[k])| == w[k])
            && |Line(items[i], w)| == 4 + w[0] + w[1] + w[2] + w[3]
  {
    var w := ColumnWidths(items);
    FieldFits(items, i, 0);
    FieldFits(items, i, 1);
    FieldFits(items, i, 2);
    FieldFits(items, i, 3);
    assert forall k :: 0 <= k < 4 ==> w[k] == ColumnWidth(items, k);
  }

  /** A field padded to its column's width takes exactly that width. */
  lemma FieldFits(items: seq<PullRequest>, i: nat, k: nat)
    requires i < |items| && k < 4
    ensures |PadRight(Field(items[i], k), ColumnWidth(items, k))| == ColumnWidth(items, k)
  {
    assert |Field(items[i], k)| <= ColumnWidth(items, k);
  }

  /** Titles of lengths 3, 10 and 1 are all padded to width 10. */
  lemma TitleColumnExample(a: PullRequest, b: PullRequest, c: PullRequest)
    requires |a.title| == 3 && |b.title| == 10 && |c.title| == 1
    ensures ColumnWidth([a, b, c], 1) == 10
    ensures forall item :: item in [a, b, c] ==> |PadRight(item.title, ColumnWidth([a, b, c], 1))| == 10
  {
    var items := [a, b, c];
    assert Field(items[1], 1) == b.title;
    assert forall i :: 0 <= i < 3 ==> |Field(items[i], 1)| <= 10;
  }

  /** How many flags are set. */
  function CountSet(flags: seq<bool>): nat
  {
    if flags == [] then 0 else CountSet(flags[..|flags| - 1]) + (if flags[|flags| - 1] then 1 else 0)
  }

  /** Row i is highlighted exactly when the hover is Some(i). */
  predicate HighlightsHover(flags: seq<bool>, hovered: Option<nat>)
  {
    forall i :: 0 <= i < |flags| ==> flags[i] == (hovered == Some(i))
  }

  /** Appending the flag of the next row keeps the highlighting tied to the hover. */
  lemma HighlightsHoverExtended(flags: seq<bool>, hovered: Option<nat>, next: bool)
    requires HighlightsHover(flags, hovered)
    requires next == (hovered == Some(|flags|))
    ensures HighlightsHover(flags + [next], hovered)
  {
    var extended := flags + [next];
    forall i | 0 <= i < |extended|
      ensures extended[i] == (hovered == Some(i))
    {
      if i < |flags| {
        assert extended[i] == flags[i];
      }
    }
  }

  /** The loop of `render` over the rows: row i is drawn highlighted exactly when it is hovered. */
  method HighlightRows(count: nat, hovered: Option<nat>) returns (highlighted: seq<bool>)
    ensures |highlighted| == count && HighlightsHover(highlighted, hovered)
  {
    highlighted := [];
    var i := 0;
    while i < count
      invariant 0 <= i <= count
      invariant |highlighted| == i && HighlightsHover(highlighted, hovered)
    {
      var isHovered := hovered.Some? && hovered.value == i;
      HighlightsHoverExtended(highlighted, hovered, isHovered);
      highlighted := highlighted + [isHovered];
      i := i + 1;
    }
  }

  /** At most one row is highlighted: one if the hover names a row, none otherwise. */
  lemma {:induction false} OneHighlightAtMost(flags: seq<bool>, hovered: Option<nat>)
    requires HighlightsHover(flags, hovered)
    ensures CountSet(flags) == if hovered.Some? && hovered.value < |flags| then 1 else 0
  {
    if flags != [] {
      var init := flags[..|flags| - 1];
      assert HighlightsHover(init, hovered) by {
        forall i | 0 <= i < |init| ensures init[i] == (hovered == Some(i)) {
          assert init[i] == flags[i];
        }
      }
      OneHighlightAtMost(init, hovered);
    }
  }

  /*
   * The view object.
   */

  class PullRequestList {
    var dirty: bool
    var items: seq<PullRequest>
    var hovered: Option<nat>

    /** The view's fields as a value. */
    function State(): ListState
      reads this
    {
      ListState(items, hovered, dirty)
    }

    /** `new`: dirty, nothing hovered, the items exactly as given. */
    constructor (pullRequests: seq<PullRequest>)
      ensures State() == ListState(pullRequests, None, true)
    {
      dirty := true;
      items := pullRequests;
      hovered := None;
    }

    method HoverDown()
      requires hovered.Some? ==> |items| > 0
      modifies this
      ensures items == old(items) && dirty
      ensures hovered == HoverDownIndex(old(hovered), |old(items)|)
    {
      match hovered {
        case None => hovered := Some(0);
        case Some(idx) =>
          if idx < |items| - 1 {
            hovered := Some(idx + 1);
          } else {
            hovered := Some(0);
          }
      }
      dirty := true;
    }

    method HoverUp()
      requires |items| > 0 || (hovered.Some? && hovered.value > 0)
      modifies this
      ensures items == old(items) && dirty
      ensures hovered == HoverUpIndex(old(hovered), |old(items)|)
    {
      match hovered {
        case None => hovered := Some(|items| - 1);
        case Some(idx) =>
          if idx <= 0 {
            hovered := Some(|items| - 1);
          } else {
            hovered := Some(idx - 1);
          }
      }
      dirty := true;
    }

    /** `dirty()`: true exactly when a render would still change the view. */
    function Dirty(): (d: bool)
      reads this
      ensures d <==> Rendered(State()) != State()
    {
      dirty
    }

    /** `handle_event`: Up and Down move the hover; every other event is ignored. */
    method HandleEvent(e: Event)
      requires CanHandle(State(), e)
      modifies this
      ensures State() == Handled(old(State()), e)
    {
      match e {
        case Move(direction) =>
          match direction {
            case Up => HoverUp();
            case Down => HoverDown();
            case _ =>
          }
        case _ =>
      }
    }

    /** `select`: the hovered item wrapped in a ShowPull command, or nothing when no row is hovered. */
    function Select(): (command: Option<Command>)
      reads this
      requires hovered.Some? ==> hovered.value < |items|
      ensures command.Some? <==> hovered.Some?
      ensures forall i :: hovered == Some(i) ==> command == Some(ShowPull(items[i]))
    {
      if hovered.Some? then Some(ShowPull(items[hovered.value])) else None
    }

    /**
     * `render` without the terminal output: the column widths it draws with and, row by
     * row, whether the row is drawn highlighted. Afterwards the view is clean.
     */
    method Render() returns (widths: seq<nat>, highlighted: seq<bool>)
      modifies this
      ensures State() == Rendered(old(State()))
      ensures widths == ColumnWidths(old(items))
      ensures |highlighted| == |items| && HighlightsHover(highlighted, hovered)
    {
      widths := ColumnWidths(items);
      highlighted := HighlightRows(|items|, hovered);
      dirty := false;
    }
  }

  /** Two items, hovered twice downwards: the second row is hovered and selecting it yields a ShowPull of the second item. */
  method HoverAndSelectScenario(first: PullRequest, second: PullRequest)
  {
    var list := new PullRequestList([first, second]);
    list.HandleEvent(Move(Down));
    assert list.hovered == Some(0);
    list.HandleEvent(Move(Down));
    assert list.hovered == Some(1);
    assert list.Select() == Some(ShowPull(second));
    list.HandleEvent(Move(Down));
    assert list.hovered == Some(0);
    list.HandleEvent(Move(Up));
    assert list.hovered == Some(1);
    list.HandleEvent(Move(Left));
    assert list.hovered == Some(1) && list.dirty;
  }

  /** Rendering a list with the second row hovered highlights that row alone and cleans the view. */
  method RenderScenario(first: PullRequest, second: PullRequest)
  {
    var list := new PullRequestList([first, second]);
    list.HoverUp();
    assert list.hovered == Some(1);
    var widths, highlighted := list.Render();
    assert highlighted[0] == false && highlighted[1] == true;
    assert !list.dirty;
  }
}
