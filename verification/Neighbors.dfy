/** The broadcast neighbourhood of node/src/node_essentials.c: the loops that list it, and its exact shape. */
module Neighbors {
  import opened Settings

  const CONNECTIONS := 29

  function FromPos(row: int, col: int): uint8
    requires 0 <= row < MATRIX_SIZE && 0 <= col < MATRIX_SIZE
  {
    row * MATRIX_SIZE + col
  }

  function Row(addr: uint8): int {
    addr / MATRIX_SIZE
  }

  function Col(addr: uint8): int {
    addr % MATRIX_SIZE
  }

  function Abs(x: int): nat {
    if x < 0 then -x else x
  }

  /** The shape: a square of reach R - 1 with four tips of reach R, without its centre. */
  predicate InShape(dRow: int, dCol: int, radius: nat) {
    && (dRow != 0 || dCol != 0)
    && (|| (Abs(dRow) < radius && Abs(dCol) < radius)
        || (dCol == 0 && Abs(dRow) <= radius)
        || (dRow == 0 && Abs(dCol) <= radius))
  }

  predicate InReach(a: uint8, b: uint8, radius: nat) {
    a < NODE_COUNT && b < NODE_COUNT && InShape(Row(b) - Row(a), Col(b) - Col(a), radius)
  }

  predicate Adjacent(a: uint8, b: uint8) {
    InReach(a, b, BROADCAST_RADIUS)
  }

  lemma ReachSymmetric(a: uint8, b: uint8, radius: nat)
    ensures InReach(a, b, radius) <==> InReach(b, a, radius)
  {
  }

  // ---------------------------------------------------------------- the order the loops list it in

  function Leftward(row: int, col: int, stop: int): (s: seq<uint8>)
    requires 0 <= row < MATRIX_SIZE && col < MATRIX_SIZE
    decreases col
  {
    if col > stop && col >= 0 then [FromPos(row, col)] + Leftward(row, col - 1, stop) else []
  }

  function Rightward(row: int, col: int, stop: int): (s: seq<uint8>)
    requires 0 <= row < MATRIX_SIZE && 0 <= col
    decreases MATRIX_SIZE - col
  {
    if col < stop && col < MATRIX_SIZE then [FromPos(row, col)] + Rightward(row, col + 1, stop) else []
  }

  /** left_right_neighbours: nothing in the two outermost rows. */
  function Sides(row: int, col: int, radius: uint8, i: int): seq<uint8>
    requires 0 <= i < MATRIX_SIZE && 0 <= col < MATRIX_SIZE
  {
    if i != row - radius && i != row + radius
    then Leftward(i, col - 1, col - radius) + Rightward(i, col + 1, col + radius)
    else []
  }

  function Upward(row: int, col: int, radius: uint8, i: int): seq<uint8>
    requires i < MATRIX_SIZE && 0 <= col < MATRIX_SIZE
    decreases i
  {
    if i >= row - radius && i >= 0
    then [FromPos(i, col)] + Sides(row, col, radius, i) + Upward(row, col, radius, i - 1)
    else []
  }

  function Downward(row: int, col: int, radius: uint8, i: int): seq<uint8>
    requires 0 <= i && 0 <= col < MATRIX_SIZE
    decreases MATRIX_SIZE - i
  {
    if i <= row + radius && i < MATRIX_SIZE
    then [FromPos(i, col)] + Sides(row, col, radius, i) + Downward(row, col, radius, i + 1)
    else []
  }

  function NeighborList(addr: uint8, radius: uint8): seq<uint8> {
    if Row(addr) >= MATRIX_SIZE then [] else Around(Row(addr), Col(addr), radius)
  }

  function Around(row: int, col: int, radius: uint8): seq<uint8>
    requires 0 <= row < MATRIX_SIZE && 0 <= col < MATRIX_SIZE
  {
    Upward(row, col, radius, row - 1) + Downward(row, col, radius, row + 1)
    + Leftward(row, col - 1, col - radius - 1) + Rightward(row, col + 1, col + radius + 1)
  }

  // ---------------------------------------------------------------- exactly the shape, without duplicates

  predicate NoDuplicates(s: seq<uint8>) {
    forall i, j :: 0 <= i < j < |s| ==> s[i] != s[j]
  }

  predicate Disjoint(a: seq<uint8>, b: seq<uint8>) {
    forall x :: x in a ==> x !in b
  }

  lemma ConcatNoDuplicates(a: seq<uint8>, b: seq<uint8>)
    requires NoDuplicates(a) && NoDuplicates(b) && Disjoint(a, b)
    ensures NoDuplicates(a + b)
  {
    forall i, j | 0 <= i < j < |a + b| ensures (a + b)[i] != (a + b)[j] {
      if i < |a| <= j {
        assert (a + b)[i] in a && (a + b)[j] in b;
      }
    }
  }

  lemma {:induction false} LeftwardMembers(row: int, col: int, stop: int)
    requires 0 <= row < MATRIX_SIZE && col < MATRIX_SIZE
    ensures forall x: uint8 :: x in Leftward(row, col, stop) <==> Row(x) == row && stop < Col(x) <= col
    ensures NoDuplicates(Leftward(row, col, stop))
    ensures |Leftward(row, col, stop)| <= (if col > stop then col - stop else 0)
    decreases col
  {
    if col > stop && col >= 0 {
      LeftwardMembers(row, col - 1, stop);
      ConcatNoDuplicates([FromPos(row, col)], Leftward(row, col - 1, stop));
      forall x: uint8 | Row(x) == row && Col(x) == col ensures x == FromPos(row, col) {
      }
    }
  }

  lemma {:induction false} RightwardMembers(row: int, col: int, stop: int)
    requires 0 <= row < MATRIX_SIZE && 0 <= col
    ensures forall x: uint8 :: x in Rightward(row, col, stop) <==> Row(x) == row && col <= Col(x) < stop
    ensures NoDuplicates(Rightward(row, col, stop))
    ensures |Rightward(row, col, stop)| <= (if stop > col then stop - col else 0)
    decreases MATRIX_SIZE - col
  {
    if col < stop && col < MATRIX_SIZE {
      RightwardMembers(row, col + 1, stop);
      ConcatNoDuplicates([FromPos(row, col)], Rightward(row, col + 1, stop));
      forall x: uint8 | Row(x) == row && Col(x) == col ensures x == FromPos(row, col) {
      }
    }
  }

  /** One row of the square: its centre and, unless it is a tip, both sides. */
  function RowLine(row: int, col: int, radius: uint8, i: int): seq<uint8>
    requires 0 <= i < MATRIX_SIZE && 0 <= col < MATRIX_SIZE
  {
    [FromPos(i, col)] + Sides(row, col, radius, i)
  }

  predicate OnRowLine(row: int, col: int, radius: uint8, i: int, x: uint8) {
    Row(x) == i && (Col(x) == col || (Abs(i - row) != radius && Abs(Col(x) - col) < radius))
  }

  lemma RowLineMembers(row: int, col: int, radius: uint8, i: int)
    requires 0 <= row < MATRIX_SIZE && 0 <= i < MATRIX_SIZE && 0 <= col < MATRIX_SIZE && i != row
    ensures forall x: uint8 :: x in RowLine(row, col, radius, i) <==> OnRowLine(row, col, radius, i, x)
    ensures NoDuplicates(RowLine(row, col, radius, i))
    ensures |RowLine(row, col, radius, i)| <= if Abs(i - row) == radius then 1 else 1 + 2 * (if radius > 0 then radius - 1 else 0)
  {
    if i != row - radius && i != row + radius {
      var left := Leftward(i, col - 1, col - radius);
      var right := Rightward(i, col + 1, col + radius);
      LeftwardMembers(i, col - 1, col - radius);
      RightwardMembers(i, col + 1, col + radius);
      assert Disjoint(left, right);
      ConcatNoDuplicates(left, right);
      assert Disjoint([FromPos(i, col)], left + right);
      ConcatNoDuplicates([FromPos(i, col)], left + right);
    }
    forall x: uint8 ensures x in RowLine(row, col, radius, i) <==> OnRowLine(row, col, radius, i, x) {
      if Row(x) == i && Col(x) == col {
        assert x == FromPos(i, col);
        assert x == RowLine(row, col, radius, i)[0];
      }
    }
  }

  lemma OnRowLineOnlyThere(row: int, col: int, radius: uint8, i: int, x: uint8)
    requires OnRowLine(row, col, radius, i, x)
    ensures Row(x) == i
  {
  }

  /** A row's line in front of the lines of the rows from lo to hi, none of them that row. */
  lemma PrependLine(row: int, col: int, radius: uint8, i: int, lo: int, hi: int, line: seq<uint8>, more: seq<uint8>)
    requires forall x: uint8 :: x in line <==> OnRowLine(row, col, radius, i, x)
    requires forall x: uint8 :: x in more <==> lo <= Row(x) <= hi && OnRowLine(row, col, radius, Row(x), x)
    requires NoDuplicates(line) && NoDuplicates(more) && !(lo <= i <= hi)
    ensures forall x: uint8 :: x in line + more <==>
      (lo <= Row(x) <= hi || Row(x) == i) && OnRowLine(row, col, radius, Row(x), x)
    ensures NoDuplicates(line + more)
  {
    hide Row, Col, OnRowLine, NoDuplicates;
    forall x: uint8 | x in line ensures Row(x) == i {
      OnRowLineOnlyThere(row, col, radius, i, x);
    }
    ConcatNoDuplicates(line, more);
  }

  lemma RowsAreNonNegative()
    ensures forall x: uint8 :: Row(x) >= 0 && 0 <= Col(x) < MATRIX_SIZE
  {
  }

  lemma UpwardUnfolds(row: int, col: int, radius: uint8, i: int)
    requires i < MATRIX_SIZE && 0 <= col < MATRIX_SIZE
    ensures Upward(row, col, radius, i) ==
      if i >= row - radius && i >= 0 then RowLine(row, col, radius, i) + Upward(row, col, radius, i - 1) else []
  {
  }

  lemma {:induction false} UpwardMembers(row: int, col: int, radius: uint8, i: int)
    requires 0 <= row < MATRIX_SIZE && i < row && 0 <= col < MATRIX_SIZE
    ensures forall x: uint8 :: x in Upward(row, col, radius, i) <==>
      row - radius <= Row(x) <= i && OnRowLine(row, col, radius, Row(x), x)
    ensures NoDuplicates(Upward(row, col, radius, i))
    decreases i
  {
    hide Row, Col, RowLine, Upward, OnRowLine, NoDuplicates;
    UpwardUnfolds(row, col, radius, i);
    RowsAreNonNegative();
    if i >= row - radius && i >= 0 {
      UpwardMembers(row, col, radius, i - 1);
      RowLineMembers(row, col, radius, i);
      PrependLine(row, col, radius, i, row - radius, i - 1, RowLine(row, col, radius, i), Upward(row, col, radius, i - 1));
    } else {
      EmptyHasNoDuplicates();
    }
  }

  lemma DownwardUnfolds(row: int, col: int, radius: uint8, i: int)
    requires 0 <= i && 0 <= col < MATRIX_SIZE
    ensures Downward(row, col, radius, i) ==
      if i <= row + radius && i < MATRIX_SIZE then RowLine(row, col, radius, i) + Downward(row, col, radius, i + 1) else []
  {
  }

  /** The last row the walk down may visit. */
  function LowestRow(row: int, radius: uint8): int {
    if row + radius < MATRIX_SIZE then row + radius else MATRIX_SIZE - 1
  }

  lemma {:induction false} DownwardMembers(row: int, col: int, radius: uint8, i: int)
    requires 0 <= row < MATRIX_SIZE && i > row && 0 <= col < MATRIX_SIZE
    ensures forall x: uint8 :: x in Downward(row, col, radius, i) <==>
      i <= Row(x) <= LowestRow(row, radius) && OnRowLine(row, col, radius, Row(x), x)
    ensures NoDuplicates(Downward(row, col, radius, i))
    decreases MATRIX_SIZE - i
  {
    hide Row, Col, RowLine, Downward, OnRowLine, NoDuplicates;
    DownwardUnfolds(row, col, radius, i);
    if i <= row + radius && i < MATRIX_SIZE {
      DownwardMembers(row, col, radius, i + 1);
      RowLineMembers(row, col, radius, i);
      PrependLine(row, col, radius, i, i + 1, LowestRow(row, radius), RowLine(row, col, radius, i), Downward(row, col, radius, i + 1));
    } else {
      EmptyHasNoDuplicates();
    }
  }

  /** Above and below, a node of the shape is a node on its row's line. */
  lemma ShapeByRows(row: int, col: int, radius: uint8, x: uint8)
    requires 0 <= row < MATRIX_SIZE && 0 <= col < MATRIX_SIZE && Row(x) != row
    ensures InShape(Row(x) - row, Col(x) - col, radius) <==>
      Abs(Row(x) - row) <= radius && OnRowLine(row, col, radius, Row(x), x)
  {
    hide Row, Col;
  }

  /** The loops list exactly the nodes in reach, each once. */
  lemma NeighborListExact(addr: uint8, radius: uint8)
    ensures forall x: uint8 :: x in NeighborList(addr, radius) <==> InReach(addr, x, radius)
    ensures NoDuplicates(NeighborList(addr, radius))
  {
    RowsAreNonNegative();
    GridIsTenRows();
    hide Row, Col, OnRowLine, NoDuplicates, Upward, Downward, Leftward, Rightward;
    var row, col := Row(addr), Col(addr);
    if row < MATRIX_SIZE {
      var up, down := Upward(row, col, radius, row - 1), Downward(row, col, radius, row + 1);
      var left, right := Leftward(row, col - 1, col - radius - 1), Rightward(row, col + 1, col + radius + 1);
      UpwardMembers(row, col, radius, row - 1);
      DownwardMembers(row, col, radius, row + 1);
      LeftwardMembers(row, col - 1, col - radius - 1);
      RightwardMembers(row, col + 1, col + radius + 1);
      ConcatNoDuplicates(up, down);
      ConcatNoDuplicates(up + down, left);
      ConcatNoDuplicates(up + down + left, right);
      forall x: uint8 ensures x in NeighborList(addr, radius) <==> InReach(addr, x, radius) {
        if Row(x) != row {
          ShapeByRows(row, col, radius, x);
        }
      }
    } else {
      assert NeighborList(addr, radius) == [];
      EmptyHasNoDuplicates();
    }
  }

  lemma EmptyHasNoDuplicates()
    ensures NoDuplicates([])
  {
  }

  lemma GridIsTenRows()
    ensures forall x: uint8 :: x < NODE_COUNT <==> Row(x) < MATRIX_SIZE
  {
  }

  // ---------------------------------------------------------------- size

  lemma OneMore(k: int, w: int)
    ensures k * w == w + (k - 1) * w
  {
  }

  lemma NonNegativeProduct(k: int, w: int)
    requires k >= 0 && w >= 0
    ensures k * w >= 0
  {
  }

  lemma {:induction false} UpwardCount(row: int, col: int, radius: uint8, i: int)
    requires 0 <= row < MATRIX_SIZE && i < row && 0 <= col < MATRIX_SIZE && radius > 0
    ensures |Upward(row, col, radius, i)| <=
      if i >= row - radius then 1 + (i - (row - radius)) * (2 * radius - 1) else 0
    decreases i
  {
    hide Upward, RowLine, Row, Col, OnRowLine, NoDuplicates;
    UpwardUnfolds(row, col, radius, i);
    if i >= row - radius && i >= 0 {
      UpwardCount(row, col, radius, i - 1);
      RowLineMembers(row, col, radius, i);
      OneMore(i - (row - radius), 2 * radius - 1);
    } else if i >= row - radius {
      NonNegativeProduct(i - (row - radius), 2 * radius - 1);
    }
  }

  lemma {:induction false} DownwardCount(row: int, col: int, radius: uint8, i: int)
    requires 0 <= row < MATRIX_SIZE && i > row && 0 <= col < MATRIX_SIZE && radius > 0
    ensures |Downward(row, col, radius, i)| <=
      if i <= row + radius then 1 + (row + radius - i) * (2 * radius - 1) else 0
    decreases MATRIX_SIZE - i
  {
    hide Downward, RowLine, Row, Col, OnRowLine, NoDuplicates;
    DownwardUnfolds(row, col, radius, i);
    if i <= row + radius && i < MATRIX_SIZE {
      DownwardCount(row, col, radius, i + 1);
      RowLineMembers(row, col, radius, i);
      OneMore(row + radius - i, 2 * radius - 1);
    } else if i <= row + radius {
      NonNegativeProduct(row + radius - i, 2 * radius - 1);
    }
  }

  lemma CountArithmetic(r: int)
    requires r > 0
    ensures 2 * (1 + (r - 1) * (2 * r - 1)) + 2 * r == 4 * r * r - 4 * r + 4
    ensures 4 * r * r - 4 * r + 4 >= 4
  {
    var q := r * r;
    assert (r - 1) * (2 * r - 1) == 2 * q - 3 * r + 1;
    assert q >= r;
  }

  /** At most 4R^2 - 4R + 4 neighbours: 28 for the radius in use, one less than the connection slots. */
  lemma NeighborCount(addr: uint8, radius: uint8)
    requires radius > 0
    ensures |NeighborList(addr, radius)| <= 4 * radius * radius - 4 * radius + 4
    ensures radius == BROADCAST_RADIUS ==> |NeighborList(addr, radius)| <= CONNECTIONS - 1
  {
    RowsAreNonNegative();
    hide Row, Col, NoDuplicates, Upward, Downward, Leftward, Rightward;
    CountArithmetic(radius);
    var row, col := Row(addr), Col(addr);
    if row < MATRIX_SIZE {
      UpwardCount(row, col, radius, row - 1);
      DownwardCount(row, col, radius, row + 1);
      LeftwardMembers(row, col - 1, col - radius - 1);
      RightwardMembers(row, col + 1, col + radius + 1);
    }
  }

  /** The bound is reached: a node away from the border has exactly 28 neighbours. */
  lemma InnerNodeHasTwentyEight()
    ensures |NeighborList(33, BROADCAST_RADIUS)| == CONNECTIONS - 1
  {
    SidesCount(3, 3, 1);
    SidesCount(3, 3, 2);
    SidesCount(3, 3, 4);
    SidesCount(3, 3, 5);
    assert Upward(3, 3, 3, -1) == [] && Upward(3, 3, 3, 0) == [FromPos(0, 3)];
    assert |Upward(3, 3, 3, 1)| == 6 && |Upward(3, 3, 3, 2)| == 11;
    assert Downward(3, 3, 3, 7) == [] && Downward(3, 3, 3, 6) == [FromPos(6, 3)];
    assert |Downward(3, 3, 3, 5)| == 6 && |Downward(3, 3, 3, 4)| == 11;
    assert |Leftward(3, 0, -1)| == 1 && |Leftward(3, 1, -1)| == 2 && |Leftward(3, 2, -1)| == 3;
    assert |Rightward(3, 6, 7)| == 1 && |Rightward(3, 5, 7)| == 2 && |Rightward(3, 4, 7)| == 3;
  }

  lemma SidesCount(row: int, col: int, i: int)
    requires row == col == 3 && i in {1, 2, 4, 5}
    ensures |Sides(row, col, 3, i)| == 4
  {
    assert |Leftward(i, 1, 0)| == 1 && |Leftward(i, 2, 0)| == 2;
    assert |Rightward(i, 5, 6)| == 1 && |Rightward(i, 4, 6)| == 2;
  }

  // ---------------------------------------------------------------- the code

  function Ports(addrs: seq<uint8>): (ports: seq<uint16>)
    ensures |ports| == |addrs| && forall i :: 0 <= i < |addrs| ==> ports[i] == NodePort(addrs[i])
  {
    seq(|addrs|, i requires 0 <= i < |addrs| => NodePort(addrs[i]))
  }

  lemma PortsConcat(a: seq<uint8>, b: seq<uint8>)
    ensures Ports(a + b) == Ports(a) + Ports(b)
  {
  }

  lemma PortsOfNone()
    ensures Ports([]) == []
  {
  }

  /** broadcast_neighbors and neighbor_num. */
  class BroadcastNeighbors {
    const ports: array<uint16>
    var num: nat

    ghost predicate Valid()
      reads this
    {
      ports.Length == CONNECTIONS && num <= CONNECTIONS
    }

    ghost function Listed(): seq<uint16>
      requires Valid()
      reads this, ports
    {
      ports[..num]
    }

    constructor ()
      ensures Valid() && fresh(ports) && num == 0
    {
      ports := new uint16[CONNECTIONS](i => 0);
      num := 0;
    }

    method Push(addr: uint8)
      requires Valid() && num < CONNECTIONS
      modifies this, ports
      ensures Valid() && Listed() == old(Listed()) + Ports([addr])
    {
      ports[num] := NodePort(addr);
      num := num + 1;
    }

    /** done has been listed, rest is what the loop still has to list; next is listed now. */
    lemma Progress(total: seq<uint8>, done: seq<uint8>, next: seq<uint8>, rest: seq<uint8>)
      requires total == done + (next + rest)
      ensures total == (done + next) + rest
      ensures Ports(done + next) == Ports(done) + Ports(next)
      ensures |Ports(done)| + |next| <= |total|
    {
    }

    method WalkLeft(row: int, start: int, stop: int)
      requires Valid() && 0 <= row < MATRIX_SIZE && start < MATRIX_SIZE
      requires num + |Leftward(row, start, stop)| <= CONNECTIONS
      modifies this, ports
      ensures Valid() && Listed() == old(Listed()) + Ports(Leftward(row, start, stop))
    {
      hide Ports;
      var j := start;
      ghost var done: seq<uint8> := [];
      ghost var total := Leftward(row, start, stop);
      PortsOfNone();
      while j > stop && j >= 0
        invariant Valid() && j <= start
        invariant total == done + Leftward(row, j, stop)
        invariant Listed() == old(Listed()) + Ports(done)
        decreases j
      {
        Progress(total, done, [FromPos(row, j)], Leftward(row, j - 1, stop));
        Push(FromPos(row, j));
        done := done + [FromPos(row, j)];
        j := j - 1;
      }
      assert total == done;
    }

    method WalkRight(row: int, start: int, stop: int)
      requires Valid() && 0 <= row < MATRIX_SIZE && 0 <= start
      requires num + |Rightward(row, start, stop)| <= CONNECTIONS
      modifies this, ports
      ensures Valid() && Listed() == old(Listed()) + Ports(Rightward(row, start, stop))
    {
      hide Ports;
      var j := start;
      ghost var done: seq<uint8> := [];
      ghost var total := Rightward(row, start, stop);
      PortsOfNone();
      while j < stop && j < MATRIX_SIZE
        invariant Valid() && j >= start
        invariant total == done + Rightward(row, j, stop)
        invariant Listed() == old(Listed()) + Ports(done)
        decreases MATRIX_SIZE - j
      {
        Progress(total, done, [FromPos(row, j)], Rightward(row, j + 1, stop));
        Push(FromPos(row, j));
        done := done + [FromPos(row, j)];
        j := j + 1;
      }
      assert total == done;
    }

    method LeftRight(col: int, radius: uint8, i: int, row: int)
      requires Valid() && 0 <= i < MATRIX_SIZE && 0 <= col < MATRIX_SIZE
      requires num + |Sides(row, col, radius, i)| <= CONNECTIONS
      modifies this, ports
      ensures Valid() && Listed() == old(Listed()) + Ports(Sides(row, col, radius, i))
    {
      hide Ports, Leftward, Rightward;
      PortsOfNone();
      if i != row - radius && i != row + radius {
        WalkLeft(i, col - 1, col - radius);
        assert num == old(num) + |Leftward(i, col - 1, col - radius)|;
      }
      if i != row - radius && i != row + radius {
        WalkRight(i, col + 1, col + radius);
        PortsConcat(Leftward(i, col - 1, col - radius), Rightward(i, col + 1, col + radius));
      }
    }

    /** One row of the walk up or down, with the walk's bookkeeping. */
    method WalkRow(row: int, col: int, radius: uint8, i: int,
                   ghost base: seq<uint16>, ghost total: seq<uint8>, ghost done: seq<uint8>, ghost rest: seq<uint8>)
      requires Valid() && 0 <= i < MATRIX_SIZE && 0 <= col < MATRIX_SIZE
      requires Listed() == base + Ports(done) && total == done + (RowLine(row, col, radius, i) + rest)
      requires |base| + |total| <= CONNECTIONS
      modifies this, ports
      ensures Valid() && Listed() == base + Ports(done + RowLine(row, col, radius, i))
      ensures total == (done + RowLine(row, col, radius, i)) + rest
    {
      hide Ports, Sides;
      Progress(total, done, RowLine(row, col, radius, i), rest);
      PortsConcat([FromPos(i, col)], Sides(row, col, radius, i));
      assert num == |base| + |done|;
      Push(FromPos(i, col));
      LeftRight(col, radius, i, row);
    }

    method WalkUp(row: int, col: int, radius: uint8)
      requires Valid() && 0 <= row < MATRIX_SIZE && 0 <= col < MATRIX_SIZE
      requires num + |Upward(row, col, radius, row - 1)| <= CONNECTIONS
      modifies this, ports
      ensures Valid() && Listed() == old(Listed()) + Ports(Upward(row, col, radius, row - 1))
    {
      hide Ports, Upward, RowLine;
      var i := row - 1;
      ghost var done, total, base := [], Upward(row, col, radius, row - 1), Listed();
      PortsOfNone();
      UpwardUnfolds(row, col, radius, i);
      while i >= row - radius && i >= 0
        invariant Valid() && i < row
        invariant total == done + Upward(row, col, radius, i)
        invariant Listed() == base + Ports(done)
        invariant !(i >= row - radius && i >= 0) ==> Upward(row, col, radius, i) == []
        decreases i
      {
        UpwardUnfolds(row, col, radius, i);
        UpwardUnfolds(row, col, radius, i - 1);
        WalkRow(row, col, radius, i, base, total, done, Upward(row, col, radius, i - 1));
        done := done + RowLine(row, col, radius, i);
        i := i - 1;
      }
      assert total == done;
    }

    method WalkDown(row: int, col: int, radius: uint8)
      requires Valid() && 0 <= row < MATRIX_SIZE && 0 <= col < MATRIX_SIZE
      requires num + |Downward(row, col, radius, row + 1)| <= CONNECTIONS
      modifies this, ports
      ensures Valid() && Listed() == old(Listed()) + Ports(Downward(row, col, radius, row + 1))
    {
      hide Ports, Downward, RowLine;
      var i := row + 1;
      ghost var done, total, base := [], Downward(row, col, radius, row + 1), Listed();
      PortsOfNone();
      DownwardUnfolds(row, col, radius, i);
      while i <= row + radius && i < MATRIX_SIZE
        invariant Valid() && i > row
        invariant total == done + Downward(row, col, radius, i)
        invariant Listed() == base + Ports(done)
        invariant !(i <= row + radius && i < MATRIX_SIZE) ==> Downward(row, col, radius, i) == []
        decreases MATRIX_SIZE - i
      {
        DownwardUnfolds(row, col, radius, i);
        DownwardUnfolds(row, col, radius, i + 1);
        WalkRow(row, col, radius, i, base, total, done, Downward(row, col, radius, i + 1));
        done := done + RowLine(row, col, radius, i);
        i := i + 1;
      }
      assert total == done;
    }

    method FillAround(row: int, col: int, radius: uint8)
      requires Valid() && 0 <= row < MATRIX_SIZE && 0 <= col < MATRIX_SIZE
      requires num + |Around(row, col, radius)| <= CONNECTIONS
      modifies this, ports
      ensures Valid() && Listed() == old(Listed()) + Ports(Around(row, col, radius))
    {
      hide Upward, Downward, Leftward, Rightward, Ports;
      ghost var up, down := Upward(row, col, radius, row - 1), Downward(row, col, radius, row + 1);
      ghost var left, right := Leftward(row, col - 1, col - radius - 1), Rightward(row, col + 1, col + radius + 1);
      PortsConcat(up, down);
      PortsConcat(up + down, left);
      PortsConcat(up + down + left, right);
      WalkUp(row, col, radius);
      assert num == old(num) + |up|;
      WalkDown(row, col, radius);
      assert Listed() == old(Listed()) + Ports(up + down);
      assert num == old(num) + |up + down|;
      WalkLeft(row, col - 1, col - radius - 1);
      assert Listed() == old(Listed()) + Ports(up + down + left);
      assert num == old(num) + |up + down + left|;
      WalkRight(row, col + 1, col + radius + 1);
    }

    /** fill_broadcast_neighbors. */
    method Fill(addr: uint8, radius: uint8)
      requires Valid() && num + |NeighborList(addr, radius)| <= CONNECTIONS
      modifies this, ports
      ensures Valid() && Listed() == old(Listed()) + Ports(NeighborList(addr, radius))
    {
      hide Around, Ports;
      PortsOfNone();
      var row := addr / MATRIX_SIZE;
      var col := addr % MATRIX_SIZE;
      if row < 0 || row >= MATRIX_SIZE || col < 0 || col >= MATRIX_SIZE {
        return;
      }
      FillAround(row, col, radius);
    }

    /** node_essentials_fill_neighbors_port on a node that has just started: the array is large enough. */
    method FillNeighborsPort(addr: uint8)
      requires Valid() && num == 0
      modifies this, ports
      ensures Valid() && ports[..num] == Ports(NeighborList(addr, BROADCAST_RADIUS))
      ensures NoDuplicates(NeighborList(addr, BROADCAST_RADIUS))
      ensures forall x: uint8 :: x in NeighborList(addr, BROADCAST_RADIUS) <==> Adjacent(addr, x)
    {
      NeighborCount(addr, BROADCAST_RADIUS);
      NeighborListExact(addr, BROADCAST_RADIUS);
      Fill(addr, BROADCAST_RADIUS);
    }
  }
}
