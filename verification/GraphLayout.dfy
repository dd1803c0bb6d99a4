/** The grid layout of the graph: each box gets a place in a grid, shifted by its row and by a hash
    of its ID, and boxes overlap only if they are higher than the gap that is left. */
module GraphLayout {
  import opened GraphLabels
  import opened Words

  const LABEL_MAX_WIDTH: real := 156.0
  const LINE_HEIGHT: real := 17.0
  const HORIZONTAL_GAP: real := 250.0
  const VERTICAL_GAP: real := 168.0
  const STAGGER: real := 85.0
  const PADDING: real := 140.0
  const AMPLITUDE: int := 34

  function Clamp(x: real, low: real, high: real): real {
    Max(low, Min(high, x))
  }

  // ---------------------------------------------------------------- the hash

  function Hash(s: string): (h: nat)
    ensures h < 0x1_0000_0000
  {
    if s == "" then 0 else (Hash(s[..|s| - 1]) * 31 + s[|s| - 1] as int) % 0x1_0000_0000
  }

  method StableHash(value: string) returns (hash: nat)
    ensures hash == Hash(value)
  {
    hash := 0;
    for index := 0 to |value|
      invariant hash == Hash(value[..index])
    {
      assert value[..index + 1][..index] == value[..index];
      hash := (hash * 31 + value[index] as int) % 0x1_0000_0000;
    }
    assert value[..|value|] == value;
  }

  function HashOffset(id: string): (r: int)
    ensures -AMPLITUDE <= r < AMPLITUDE
  {
    Hash(id) % (AMPLITUDE * 2) - AMPLITUDE
  }

  // ---------------------------------------------------------------- the grid

  /** The least root that is not below the exact one, searched from `c`. */
  function RootFrom(n: nat, c: nat): (r: nat)
    requires c <= n
    ensures c <= r <= n && r * r >= n
    ensures forall k :: c <= k < r ==> k * k < n
    decreases n - c
  {
    if c * c >= n then c
    else
      assert c < n by {
        assert n <= n * n;
      }
      RootFrom(n, c + 1)
  }

  /** `Math.max(1, Math.ceil(Math.sqrt(n)))`. */
  function Columns(n: nat): (c: nat)
    ensures c >= 1 && c * c >= n
    ensures forall k :: 1 <= k < c ==> k * k < n
  {
    if n == 0 then 1 else RootFrom(n, 1)
  }

  function Rows(n: nat): nat {
    var r := (n + Columns(n) - 1) / Columns(n);
    if r < 1 then 1 else r
  }

  /** A node with its measured label. */
  datatype Node = Node(id: string, caption: Label)

  /** A box by its centre and its size. */
  datatype Box = Box(x: real, y: real, width: real, height: real)

  function BoxWidth(l: Label): (w: real)
    ensures 132.0 <= w <= 196.0
  {
    Clamp(l.width + 36.0, 132.0, 196.0)
  }

  function BoxHeight(l: Label): (h: real)
    ensures h >= 74.0
  {
    Max(74.0, l.height + 46.0)
  }

  function BoxAt(node: Node, row: nat, column: nat): Box {
    Box(PADDING + column as real * HORIZONTAL_GAP + (if row % 2 == 0 then 0.0 else STAGGER),
        PADDING + row as real * VERTICAL_GAP + HashOffset(node.id) as real,
        BoxWidth(node.caption), BoxHeight(node.caption))
  }

  function BoxOf(node: Node, index: nat, n: nat): Box {
    BoxAt(node, index / Columns(n), index % Columns(n))
  }

  datatype Layout = Layout(boxes: seq<Box>, width: real, height: real)

  function Boxes(nodes: seq<Node>, n: nat): (boxes: seq<Box>)
    ensures |boxes| == |nodes|
    ensures forall k :: 0 <= k < |nodes| ==> boxes[k] == BoxOf(nodes[k], k, n)
  {
    if nodes == [] then [] else Boxes(nodes[..|nodes| - 1], n) + [BoxOf(nodes[|nodes| - 1], |nodes| - 1, n)]
  }

  function CreateLayout(nodes: seq<Node>): Layout {
    var n := |nodes|;
    Layout(Boxes(nodes, n),
           Max(960.0, PADDING * 2.0 + Columns(n) as real * HORIZONTAL_GAP),
           Max(640.0, PADDING * 2.0 + Rows(n) as real * VERTICAL_GAP))
  }

  // ---------------------------------------------------------------- overlaps

  predicate Overlap(a: Box, b: Box) {
    && -(a.width + b.width) / 2.0 < a.x - b.x < (a.width + b.width) / 2.0
    && -(a.height + b.height) / 2.0 < a.y - b.y < (a.height + b.height) / 2.0
  }

  lemma SameRow(i: nat, j: nat, c: nat)
    requires i < j && c > 0 && i / c == j / c
    ensures i % c < j % c
  {
    assert i == i / c * c + i % c && j == j / c * c + j % c;
  }

  lemma {:induction false} Steps(a: nat, b: nat, c: nat)
    requires a < b
    ensures b * c >= a * c + c
  {
    if a + 1 < b {
      Steps(a, b - 1, c);
    }
    assert b * c == (b - 1) * c + c;
  }

  lemma LaterRow(i: nat, j: nat, c: nat)
    requires i < j && c > 0
    ensures i / c <= j / c
  {
    assert i == i / c * c + i % c && j == j / c * c + j % c;
    if i / c > j / c {
      Steps(j / c, i / c, c);
    }
  }

  /** Two boxes of one row never overlap, however high they are. */
  lemma RowHasNoOverlap(a: Node, b: Node, i: nat, j: nat, n: nat)
    requires i < j && i / Columns(n) == j / Columns(n)
    ensures !Overlap(BoxOf(a, i, n), BoxOf(b, j, n))
  {
    SameRow(i, j, Columns(n));
    var p, q := BoxOf(a, i, n), BoxOf(b, j, n);
    assert q.x - p.x == (j % Columns(n) - i % Columns(n)) as real * HORIZONTAL_GAP;
  }

  /** Boxes of different rows are at least 101 apart, centre to centre. */
  lemma RowsAreApart(a: Node, b: Node, i: nat, j: nat, n: nat)
    requires i < j && i / Columns(n) != j / Columns(n)
    ensures BoxOf(b, j, n).y - BoxOf(a, i, n).y >= 101.0
  {
    LaterRow(i, j, Columns(n));
    var rows, shift := j / Columns(n) - i / Columns(n), HashOffset(b.id) - HashOffset(a.id);
    assert rows >= 1 && shift >= -67;
    assert BoxOf(b, j, n).y - BoxOf(a, i, n).y == rows as real * VERTICAL_GAP + shift as real;
  }

  ghost predicate NoHigher(nodes: seq<Node>, height: real) {
    forall k :: 0 <= k < |nodes| ==> BoxHeight(nodes[k].caption) <= height
  }

  ghost predicate NoOverlaps(boxes: seq<Box>) {
    forall i, j :: 0 <= i < j < |boxes| ==> !Overlap(boxes[i], boxes[j])
  }

  /** No layout whose boxes are at most this high has an overlap. */
  ghost predicate Safe(height: real) {
    forall nodes :: NoHigher(nodes, height) ==> NoOverlaps(CreateLayout(nodes).boxes)
  }

  lemma LowBoxesDoNotOverlap(nodes: seq<Node>)
    requires NoHigher(nodes, 101.0)
    ensures NoOverlaps(CreateLayout(nodes).boxes)
  {
    var boxes, n := CreateLayout(nodes).boxes, |nodes|;
    forall i, j | 0 <= i < j < |boxes| ensures !Overlap(boxes[i], boxes[j]) {
      if i / Columns(n) == j / Columns(n) {
        RowHasNoOverlap(nodes[i], nodes[j], i, j, n);
      } else {
        RowsAreApart(nodes[i], nodes[j], i, j, n);
      }
    }
  }

  lemma ThreeNodes()
    ensures Columns(3) == 2 && Rows(3) == 2
    ensures HashOffset("C") == 33 && HashOffset("D") == -34
  {
    assert 1 * 1 < 3;
    assert "C"[..0] == "" && "D"[..0] == "";
    assert Hash("C") == 67 && Hash("D") == 68;
  }

  /** Three nodes with higher boxes can overlap. */
  lemma HighBoxesOverlap(first: Node, second: Node, third: Node)
    requires first.id == "C" && third.id == "D"
    requires BoxHeight(first.caption) + BoxHeight(third.caption) > 202.0
    ensures !NoOverlaps(CreateLayout([first, second, third]).boxes)
  {
    ThreeNodes();
    var boxes := CreateLayout([first, second, third]).boxes;
    assert boxes[0] == BoxOf(first, 0, 3) && boxes[2] == BoxOf(third, 2, 3);
    assert boxes[0].x == 140.0 && boxes[0].y == 173.0 && boxes[2].x == 225.0 && boxes[2].y == 274.0;
    assert Overlap(boxes[0], boxes[2]);
  }

  /** The bound is exact: no layout with boxes up to a height has overlaps if and only if that
      height is at most 101. */
  lemma SafeExactly(height: real)
    ensures Safe(height) <==> height <= 101.0
  {
    if height <= 101.0 {
      forall nodes | NoHigher(nodes, height) ensures NoOverlaps(CreateLayout(nodes).boxes) {
        LowBoxesDoNotOverlap(nodes);
      }
    } else {
      var l := Label(100.0, height - 46.0, []);
      var nodes := [Node("C", l), Node("", l), Node("D", l)];
      assert NoHigher(nodes, height);
      HighBoxesOverlap(nodes[0], nodes[1], nodes[2]);
    }
  }

  // ---------------------------------------------------------------- the frame

  lemma RowInside(index: nat, n: nat)
    requires index < n
    ensures index / Columns(n) + 1 <= Rows(n)
  {
    var c := Columns(n);
    var q := index / c;
    assert q * c <= index;
    assert (q + 1) * c <= n + c - 1;
    assert (n + c - 1) / c >= q + 1;
  }

  ghost predicate Inside(b: Box, width: real, height: real) {
    && 0.0 <= b.x - b.width / 2.0 && b.x + b.width / 2.0 <= width
    && 0.0 <= b.y - b.height / 2.0 && b.y + b.height / 2.0 <= height
  }

  lemma BoxInside(node: Node, row: nat, column: nat, rows: nat, columns: nat)
    requires column + 1 <= columns && row + 1 <= rows && BoxHeight(node.caption) <= 212.0
    ensures Inside(BoxAt(node, row, column), 280.0 + columns as real * 250.0, 280.0 + rows as real * 168.0)
  {
    var b := BoxAt(node, row, column);
    assert 140.0 + column as real * 250.0 <= b.x <= 140.0 + column as real * 250.0 + 85.0;
    assert 140.0 + row as real * 168.0 - 34.0 <= b.y <= 140.0 + row as real * 168.0 + 34.0;
  }

  lemma WiderInside(b: Box, width: real, height: real, wider: real, higher: real)
    requires Inside(b, width, height) && width <= wider && height <= higher
    ensures Inside(b, wider, higher)
  {
  }

  lemma BoxOfInside(node: Node, k: nat, n: nat, columns: nat, rows: nat)
    requires k < n && columns == Columns(n) && rows == Rows(n) && BoxHeight(node.caption) <= 212.0
    ensures Inside(BoxOf(node, k, n), 280.0 + columns as real * 250.0, 280.0 + rows as real * 168.0)
  {
    RowInside(k, n);
    BoxInside(node, k / columns, k % columns, rows, columns);
  }

  /** A box of up to 212 lies inside of the reported size, whatever the number of nodes. */
  lemma BoxesInside(nodes: seq<Node>)
    requires NoHigher(nodes, 212.0)
    ensures forall k :: 0 <= k < |nodes| ==> Inside(CreateLayout(nodes).boxes[k], CreateLayout(nodes).width, CreateLayout(nodes).height)
  {
    var layout, n := CreateLayout(nodes), |nodes|;
    var columns, rows := Columns(n), Rows(n);
    var width, height := 280.0 + columns as real * 250.0, 280.0 + rows as real * 168.0;
    assert width <= layout.width && height <= layout.height;
    forall k | 0 <= k < n ensures Inside(layout.boxes[k], layout.width, layout.height) {
      BoxOfInside(nodes[k], k, n, columns, rows);
      WiderInside(BoxOf(nodes[k], k, n), width, height, layout.width, layout.height);
    }
  }

  // ---------------------------------------------------------------- boxes of measured labels

  lemma FallbackHeights(words: seq<string>)
    ensures var l := FallbackLabel(words, LABEL_MAX_WIDTH, LINE_HEIGHT);
      && |l.lines| <= 4
      && BoxHeight(l) == (if |l.lines| <= 1 then 74.0 else if |l.lines| == 2 then 80.0 else if |l.lines| == 3 then 97.0 else 114.0)
  {
    var lines := LabelLines(words, Exceeds(LABEL_MAX_WIDTH));
    var taken := LabelLinesExact(words, Exceeds(LABEL_MAX_WIDTH));
    JoinLinesSize(lines);
  }

  /** The nodes' labels are wrapped texts. */
  ghost predicate Wrapped(nodes: seq<Node>) {
    forall k :: 0 <= k < |nodes| ==> exists words :: nodes[k].caption == FallbackLabel(words, LABEL_MAX_WIDTH, LINE_HEIGHT)
  }

  /** With wrapped labels every box is inside; and no boxes overlap if no label has four lines. */
  lemma WrappedLayout(nodes: seq<Node>)
    requires Wrapped(nodes)
    ensures forall k :: 0 <= k < |nodes| ==> Inside(CreateLayout(nodes).boxes[k], CreateLayout(nodes).width, CreateLayout(nodes).height)
    ensures (forall k :: 0 <= k < |nodes| ==> |nodes[k].caption.lines| <= 3) ==> NoOverlaps(CreateLayout(nodes).boxes)
  {
    forall k | 0 <= k < |nodes|
      ensures BoxHeight(nodes[k].caption) <= 114.0 && (|nodes[k].caption.lines| <= 3 ==> BoxHeight(nodes[k].caption) <= 101.0)
    {
      var words :| nodes[k].caption == FallbackLabel(words, LABEL_MAX_WIDTH, LINE_HEIGHT);
      FallbackHeights(words);
    }
    BoxesInside(nodes);
    if forall k :: 0 <= k < |nodes| ==> |nodes[k].caption.lines| <= 3 {
      LowBoxesDoNotOverlap(nodes);
    }
  }

  lemma TwoWordsExceed(a: string, b: string)
    requires |a| >= 11 && |b| >= 11
    ensures Exceeds(LABEL_MAX_WIDTH)([a, b])
  {
    assert JoinWords([a, b]) == a + (" " + JoinWords([b])) && JoinWords([b]) == b by {
      assert [a, b][1..] == [b];
    }
  }

  /** Labels of four lines do make boxes overlap: four words of eleven letters or more are enough. */
  lemma WrappedLabelsCanOverlap(a: string, b: string, c: string, d: string, second: Node)
    requires |a| >= 11 && |b| >= 11 && |c| >= 11 && |d| >= 11
    ensures var l := FallbackLabel([a, b, c, d], LABEL_MAX_WIDTH, LINE_HEIGHT);
      |l.lines| == 4 && !NoOverlaps(CreateLayout([Node("C", l), second, Node("D", l)]).boxes)
  {
    var l := FallbackLabel([a, b, c, d], LABEL_MAX_WIDTH, LINE_HEIGHT);
    TwoWordsExceed(a, b);
    TwoWordsExceed(b, c);
    TwoWordsExceed(c, d);
    FourLines(a, b, c, d, Exceeds(LABEL_MAX_WIDTH));
    JoinLinesSize([[a], [b], [c], [d]]);
    FallbackHeights([a, b, c, d]);
    HighBoxesOverlap(Node("C", l), second, Node("D", l));
  }

  // ---------------------------------------------------------------- places

  /** The characters weighted by powers of 31. */
  function Weighted(s: string): nat {
    if s == "" then 0 else s[0] as int * Power(|s| - 1) + Weighted(s[1..])
  }

  function Power(n: nat): nat {
    if n == 0 then 1 else 31 * Power(n - 1)
  }

  lemma {:induction false} WeightedMore(s: string, c: char)
    ensures Weighted(s + [c]) == Weighted(s) * 31 + c as int
  {
    if s == "" {
      assert [] + [c] == [c] && [c][1..] == "";
      assert Power(0) == 1;
    } else {
      assert (s + [c])[1..] == s[1..] + [c];
      WeightedMore(s[1..], c);
      Shift(s[0] as int, Power(|s| - 1), Weighted(s[1..]), c as int);
    }
  }

  lemma Shift(x: nat, power: nat, rest: nat, c: nat)
    ensures x * (31 * power) + (rest * 31 + c) == (x * power + rest) * 31 + c
  {
    assert x * (31 * power) == 31 * (x * power);
  }

  lemma Reduced(x: nat, c: nat)
    ensures (x % 0x1_0000_0000 * 31 + c) % 0x1_0000_0000 == (x * 31 + c) % 0x1_0000_0000
  {
    var q, r := x / 0x1_0000_0000, x % 0x1_0000_0000;
    assert x * 31 + c == (r * 31 + c) + q * 31 * 0x1_0000_0000;
    Multiple(r * 31 + c, q * 31);
  }

  lemma {:induction false} Multiple(x: nat, q: nat)
    ensures (x + q * 0x1_0000_0000) % 0x1_0000_0000 == x % 0x1_0000_0000
  {
    if q > 0 {
      Multiple(x, q - 1);
      assert (x + (q - 1) * 0x1_0000_0000) + 0x1_0000_0000 == x + q * 0x1_0000_0000;
      OneMultiple(x + (q - 1) * 0x1_0000_0000);
    }
  }

  lemma OneMultiple(x: nat)
    ensures (x + 0x1_0000_0000) % 0x1_0000_0000 == x % 0x1_0000_0000
  {
  }

  /** The hash is the weighted sum, in 32 bits: wrapping at every step comes to the same as wrapping once. */
  lemma {:induction false} HashExact(s: string)
    ensures Hash(s) == Weighted(s) % 0x1_0000_0000
    ensures HashOffset(s) == Weighted(s) % 0x1_0000_0000 % 68 - 34
  {
    if s != "" {
      var init, c := s[..|s| - 1], s[|s| - 1];
      HashExact(init);
      assert s == init + [c];
      WeightedMore(init, c);
      Reduced(Weighted(init), c as int);
    }
  }

  /** Where a box is: 250 to the right of the one before it in its row, 168 below that in the row above,
      odd rows 85 to the right, and each moved up or down by its offset; the first one begins at 140. */
  lemma PlacesExact(a: Node, b: Node, row: nat, column: nat)
    ensures BoxAt(a, 0, 0).x == 140.0 && BoxAt(a, 0, 0).y == 140.0 + HashOffset(a.id) as real
    ensures BoxAt(b, row, column + 1).x == BoxAt(a, row, column).x + 250.0
    ensures BoxAt(b, row, column + 1).y == BoxAt(a, row, column).y + (HashOffset(b.id) - HashOffset(a.id)) as real
    ensures BoxAt(b, row + 1, column).x == BoxAt(a, row, column).x + if row % 2 == 0 then 85.0 else -85.0
    ensures BoxAt(b, row + 1, column).y == BoxAt(a, row, column).y + 168.0 + (HashOffset(b.id) - HashOffset(a.id)) as real
  {
    assert (column + 1) as real * 250.0 == column as real * 250.0 + 250.0;
    assert (row + 1) as real * 168.0 == row as real * 168.0 + 168.0;
  }

  /** How large a box is: 36 wider and 46 higher than its label, but between 132 and 196 wide and 74 high
      at least. */
  lemma BoxSizesExact(l: Label)
    ensures 132.0 <= BoxWidth(l) <= 196.0 && BoxHeight(l) >= 74.0
    ensures 96.0 <= l.width <= 160.0 ==> BoxWidth(l) == l.width + 36.0
    ensures l.width < 96.0 ==> BoxWidth(l) == 132.0
    ensures l.width > 160.0 ==> BoxWidth(l) == 196.0
    ensures BoxHeight(l) == if l.height >= 28.0 then l.height + 46.0 else 74.0
  {
  }
}
