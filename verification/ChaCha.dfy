/** The block cipher of the tunnel function: quarter rounds, key stream, block counter, payload loop. */
module ChaCha {
  import opened Bytes
  import opened Frames
  import opened Words

  /** The sixteen words of the cipher. */
  type Matrix = s: seq<bv32> | |s| == 16 witness seq(16, _ => 0)

  /* ----- quarter rounds ----- */

  datatype Quad = Quad(a: bv32, b: bv32, c: bv32, d: bv32)

  /** Half a line of the quarter round: x += y; z = (z ^ x) <<< c. */
  function Mix(x: bv32, y: bv32, z: bv32, c: bv6): (bv32, bv32)
    requires 0 < c < 32
  {
    (Plus(x, y), Rotl(Xor(z, Plus(x, y)), c))
  }

  function Unmix(x: bv32, y: bv32, z: bv32, c: bv6): (bv32, bv32)
    requires 0 < c < 32
  {
    (Minus(x, y), Xor(Rotr(z, c), x))
  }

  function Quarter(q: Quad): Quad {
    var (a1, d1) := Mix(q.a, q.b, q.d, 16);
    var (c1, b1) := Mix(q.c, d1, q.b, 12);
    var (a2, d2) := Mix(a1, b1, d1, 8);
    var (c2, b2) := Mix(c1, d2, b1, 7);
    Quad(a2, b2, c2, d2)
  }

  function Unquarter(q: Quad): Quad {
    var (c1, b1) := Unmix(q.c, q.d, q.b, 7);
    var (a1, d1) := Unmix(q.a, b1, q.d, 8);
    var (c0, b0) := Unmix(c1, d1, b1, 12);
    var (a0, d0) := Unmix(a1, b0, d1, 16);
    Quad(a0, b0, c0, d0)
  }

  lemma Rotate16(v: bv32)
    ensures Rotr(Rotl(v, 16), 16) == v && Rotl(Rotr(v, 16), 16) == v
  {
  }

  lemma Rotate12(v: bv32)
    ensures Rotr(Rotl(v, 12), 12) == v && Rotl(Rotr(v, 12), 12) == v
  {
  }

  lemma Rotate8(v: bv32)
    ensures Rotr(Rotl(v, 8), 8) == v && Rotl(Rotr(v, 8), 8) == v
  {
  }

  lemma Rotate7(v: bv32)
    ensures Rotr(Rotl(v, 7), 7) == v && Rotl(Rotr(v, 7), 7) == v
  {
  }

  /** Unmix undoes Mix and the other way round, for the four rotations in use. */
  lemma MixInverse(x: bv32, y: bv32, z: bv32, c: bv6)
    requires c == 16 || c == 12 || c == 8 || c == 7
    ensures var (x', z') := Mix(x, y, z, c); Unmix(x', y, z', c) == (x, z)
    ensures var (x', z') := Unmix(x, y, z, c); Mix(x', y, z', c) == (x, z)
  {
    hide Rotl, Rotr, Plus, Minus, Xor;
    AddBack(x, y);
    SubtractBack(x, y);
    XorBack(Plus(x, y), z);
    RotateBack(Xor(z, Plus(x, y)), c);
    RotateBack(z, c);
    XorBack(x, Rotr(z, c));
  }

  lemma RotateBack(v: bv32, c: bv6)
    requires c == 16 || c == 12 || c == 8 || c == 7
    ensures Rotr(Rotl(v, c), c) == v && Rotl(Rotr(v, c), c) == v
  {
    hide Rotl, Rotr;
    Rotate16(v);
    Rotate12(v);
    Rotate8(v);
    Rotate7(v);
  }

  /** The quarter round is a bijection on four words. */
  lemma QuarterBijective(q: Quad)
    ensures Unquarter(Quarter(q)) == q && Quarter(Unquarter(q)) == q
  {
    hide Mix, Unmix;
    var (a1, d1) := Mix(q.a, q.b, q.d, 16);
    var (c1, b1) := Mix(q.c, d1, q.b, 12);
    var (a2, d2) := Mix(a1, b1, d1, 8);
    MixInverse(q.a, q.b, q.d, 16);
    MixInverse(q.c, d1, q.b, 12);
    MixInverse(a1, b1, d1, 8);
    MixInverse(c1, d2, b1, 7);
    var (c3, b3) := Unmix(q.c, q.d, q.b, 7);
    var (a3, d3) := Unmix(q.a, b3, q.d, 8);
    var (c4, b4) := Unmix(c3, d3, b3, 12);
    MixInverse(q.c, q.d, q.b, 7);
    MixInverse(q.a, b3, q.d, 8);
    MixInverse(c3, d3, b3, 12);
    MixInverse(a3, b4, d3, 16);
  }

  /** The test vector of section 2.1.1 of RFC 8439. */
  lemma QuarterVector()
    ensures Quarter(Quad(0x1111_1111, 0x0102_0304, 0x9b8d_6f43, 0x0123_4567))
         == Quad(0xea2a_92f4, 0xcb1c_f8ce, 0x4581_472e, 0x5881_c4bb)
  {
  }

  /* ----- rounds on the matrix ----- */

  predicate Four(a: nat, b: nat, c: nat, d: nat) {
    a < 16 && b < 16 && c < 16 && d < 16 && a != b && a != c && a != d && b != c && b != d && c != d
  }

  function Take(s: Matrix, a: nat, b: nat, c: nat, d: nat): Quad
    requires Four(a, b, c, d)
  {
    Quad(s[a], s[b], s[c], s[d])
  }

  function Set(s: Matrix, a: nat, b: nat, c: nat, d: nat, q: Quad): Matrix
    requires Four(a, b, c, d)
  {
    s[a := q.a][b := q.b][c := q.c][d := q.d]
  }

  function QuarterAt(s: Matrix, a: nat, b: nat, c: nat, d: nat): Matrix
    requires Four(a, b, c, d)
  {
    Set(s, a, b, c, d, Quarter(Take(s, a, b, c, d)))
  }

  function UnquarterAt(s: Matrix, a: nat, b: nat, c: nat, d: nat): Matrix
    requires Four(a, b, c, d)
  {
    Set(s, a, b, c, d, Unquarter(Take(s, a, b, c, d)))
  }

  lemma QuarterAtBijective(s: Matrix, a: nat, b: nat, c: nat, d: nat)
    requires Four(a, b, c, d)
    ensures UnquarterAt(QuarterAt(s, a, b, c, d), a, b, c, d) == s
    ensures QuarterAt(UnquarterAt(s, a, b, c, d), a, b, c, d) == s
  {
    hide Quarter, Unquarter, Take, Set;
    var q := Take(s, a, b, c, d);
    QuarterBijective(q);
    TakeSet(s, a, b, c, d, Quarter(q));
    TakeSet(s, a, b, c, d, Unquarter(q));
  }

  lemma TakeSet(s: Matrix, a: nat, b: nat, c: nat, d: nat, q: Quad)
    requires Four(a, b, c, d)
    ensures Take(Set(s, a, b, c, d, q), a, b, c, d) == q
    ensures Set(Set(s, a, b, c, d, q), a, b, c, d, Take(s, a, b, c, d)) == s
  {
  }

  /** A column round. */
  function Columns(s: Matrix): Matrix {
    QuarterAt(QuarterAt(QuarterAt(QuarterAt(s, 0, 4, 8, 12), 1, 5, 9, 13), 2, 6, 10, 14), 3, 7, 11, 15)
  }

  /** A diagonal round. */
  function Diagonals(s: Matrix): Matrix {
    QuarterAt(QuarterAt(QuarterAt(QuarterAt(s, 0, 5, 10, 15), 1, 6, 11, 12), 2, 7, 8, 13), 3, 4, 9, 14)
  }

  function Uncolumns(s: Matrix): Matrix {
    UnquarterAt(UnquarterAt(UnquarterAt(UnquarterAt(s, 3, 7, 11, 15), 2, 6, 10, 14), 1, 5, 9, 13), 0, 4, 8, 12)
  }

  function Undiagonals(s: Matrix): Matrix {
    UnquarterAt(UnquarterAt(UnquarterAt(UnquarterAt(s, 3, 4, 9, 14), 2, 7, 8, 13), 1, 6, 11, 12), 0, 5, 10, 15)
  }

  lemma ColumnsBijective(s: Matrix)
    ensures Uncolumns(Columns(s)) == s && Columns(Uncolumns(s)) == s
  {
    hide QuarterAt, UnquarterAt;
    var s1 := QuarterAt(s, 0, 4, 8, 12);
    var s2 := QuarterAt(s1, 1, 5, 9, 13);
    var s3 := QuarterAt(s2, 2, 6, 10, 14);
    QuarterAtBijective(s, 0, 4, 8, 12);
    QuarterAtBijective(s1, 1, 5, 9, 13);
    QuarterAtBijective(s2, 2, 6, 10, 14);
    QuarterAtBijective(s3, 3, 7, 11, 15);
    var t1 := UnquarterAt(s, 3, 7, 11, 15);
    var t2 := UnquarterAt(t1, 2, 6, 10, 14);
    var t3 := UnquarterAt(t2, 1, 5, 9, 13);
    QuarterAtBijective(s, 3, 7, 11, 15);
    QuarterAtBijective(t1, 2, 6, 10, 14);
    QuarterAtBijective(t2, 1, 5, 9, 13);
    QuarterAtBijective(t3, 0, 4, 8, 12);
  }

  lemma DiagonalsBijective(s: Matrix)
    ensures Undiagonals(Diagonals(s)) == s && Diagonals(Undiagonals(s)) == s
  {
    hide QuarterAt, UnquarterAt;
    var s1 := QuarterAt(s, 0, 5, 10, 15);
    var s2 := QuarterAt(s1, 1, 6, 11, 12);
    var s3 := QuarterAt(s2, 2, 7, 8, 13);
    QuarterAtBijective(s, 0, 5, 10, 15);
    QuarterAtBijective(s1, 1, 6, 11, 12);
    QuarterAtBijective(s2, 2, 7, 8, 13);
    QuarterAtBijective(s3, 3, 4, 9, 14);
    var t1 := UnquarterAt(s, 3, 4, 9, 14);
    var t2 := UnquarterAt(t1, 2, 7, 8, 13);
    var t3 := UnquarterAt(t2, 1, 6, 11, 12);
    QuarterAtBijective(s, 3, 4, 9, 14);
    QuarterAtBijective(t1, 2, 7, 8, 13);
    QuarterAtBijective(t2, 1, 6, 11, 12);
    QuarterAtBijective(t3, 0, 5, 10, 15);
  }

  /** The matrix as four columns. */
  datatype Quads = Quads(q0: Quad, q1: Quad, q2: Quad, q3: Quad)

  function Column(m: Quads, i: nat): Quad {
    if i == 0 then m.q0 else if i == 1 then m.q1 else if i == 2 then m.q2 else m.q3
  }

  function Word(q: Quad, r: nat): bv32 {
    if r == 0 then q.a else if r == 1 then q.b else if r == 2 then q.c else q.d
  }

  function Cell(m: Quads, i: nat): bv32 { Word(Column(m, i % 4), i / 4) }

  function Flat(m: Quads): Matrix { seq(16, i requires 0 <= i < 16 => Cell(m, i)) }

  /** A quarter round down each column. */
  function Down(m: Quads): Quads { Quads(Quarter(m.q0), Quarter(m.q1), Quarter(m.q2), Quarter(m.q3)) }

  /** The second row turned left by one, the third by two, the fourth by three: diagonals become columns. */
  function Twist(m: Quads): Quads {
    Quads(Quad(m.q0.a, m.q1.b, m.q2.c, m.q3.d), Quad(m.q1.a, m.q2.b, m.q3.c, m.q0.d),
          Quad(m.q2.a, m.q3.b, m.q0.c, m.q1.d), Quad(m.q3.a, m.q0.b, m.q1.c, m.q2.d))
  }

  /** The same turns to the right. */
  function Untwist(m: Quads): Quads {
    Quads(Quad(m.q0.a, m.q3.b, m.q2.c, m.q1.d), Quad(m.q1.a, m.q0.b, m.q3.c, m.q2.d),
          Quad(m.q2.a, m.q1.b, m.q0.c, m.q3.d), Quad(m.q3.a, m.q2.b, m.q1.c, m.q0.d))
  }

  function PutRow(q: Quad, r: nat, v: bv32): Quad {
    if r == 0 then q.(a := v) else if r == 1 then q.(b := v) else if r == 2 then q.(c := v) else q.(d := v)
  }

  function PutColumn(m: Quads, i: nat, q: Quad): Quads {
    if i == 0 then m.(q0 := q) else if i == 1 then m.(q1 := q) else if i == 2 then m.(q2 := q) else m.(q3 := q)
  }

  /** The columns with one cell of the matrix changed. */
  function PutCell(m: Quads, i: nat, v: bv32): Quads {
    PutColumn(m, i % 4, PutRow(Column(m, i % 4), i / 4, v))
  }

  lemma PutIs(m: Quads, i: nat, r: nat, c: nat, v: bv32)
    requires i == 4 * r + c && r < 4 && c < 4
    ensures PutCell(m, i, v) == PutColumn(m, c, PutRow(Column(m, c), r, v))
  {
    hide PutColumn, PutRow, Column;
  }

  lemma CellIs(m: Quads, i: nat, r: nat, c: nat)
    requires i == 4 * r + c && r < 4 && c < 4
    ensures Cell(m, i) == Word(Column(m, c), r)
  {
    hide Word, Column;
  }

  lemma CellOfPut(m: Quads, i: nat, v: bv32, j: nat)
    requires i < 16 && j < 16
    ensures Cell(PutCell(m, i, v), j) == if j == i then v else Cell(m, j)
  {
    hide PutRow, PutColumn, Word, Column;
    ColumnOfPut(m, i % 4, PutRow(Column(m, i % 4), i / 4, v), j % 4);
    WordOfPut(Column(m, i % 4), i / 4, v, j / 4);
    assert i == 4 * (i / 4) + i % 4 && j == 4 * (j / 4) + j % 4;
  }

  lemma ColumnOfPut(m: Quads, i: nat, q: Quad, j: nat)
    requires i < 4 && j < 4
    ensures Column(PutColumn(m, i, q), j) == if j == i then q else Column(m, j)
  {
  }

  lemma WordOfPut(q: Quad, i: nat, v: bv32, j: nat)
    requires i < 4 && j < 4
    ensures Word(PutRow(q, i, v), j) == if j == i then v else Word(q, j)
  {
  }

  lemma FlatPut(m: Quads, i: nat, v: bv32)
    requires i < 16
    ensures Flat(m)[i := v] == Flat(PutCell(m, i, v))
  {
    hide Cell, PutCell;
    forall j | 0 <= j < 16 ensures Flat(m)[i := v][j] == Flat(PutCell(m, i, v))[j] { CellOfPut(m, i, v, j); }
  }

  /** A quarter round on four cells of the matrix, told of its columns. */
  lemma QuarterOnCells(m: Quads, a: nat, b: nat, c: nat, d: nat)
    requires Four(a, b, c, d)
    ensures var q := Quarter(Quad(Cell(m, a), Cell(m, b), Cell(m, c), Cell(m, d)));
            QuarterAt(Flat(m), a, b, c, d)
              == Flat(PutCell(PutCell(PutCell(PutCell(m, a, q.a), b, q.b), c, q.c), d, q.d))
  {
    hide Quarter, Cell, PutCell;
    var q := Quarter(Quad(Cell(m, a), Cell(m, b), Cell(m, c), Cell(m, d)));
    var m1 := PutCell(m, a, q.a);
    var m2 := PutCell(m1, b, q.b);
    FlatPut(m, a, q.a);
    FlatPut(m1, b, q.b);
    FlatPut(m2, c, q.c);
    FlatPut(PutCell(m2, c, q.c), d, q.d);
  }

  lemma Column0(m: Quads, q: Quad)
    ensures Quad(Cell(m, 0), Cell(m, 4), Cell(m, 8), Cell(m, 12)) == m.q0
    ensures PutCell(PutCell(PutCell(PutCell(m, 0, q.a), 4, q.b), 8, q.c), 12, q.d) == m.(q0 := q)
  {
    hide Cell, PutCell;
    PutIs(m, 0, 0, 0, q.a);
    CellIs(m, 0, 0, 0);
    var m1 := PutCell(m, 0, q.a);
    PutIs(m1, 4, 1, 0, q.b);
    CellIs(m, 4, 1, 0);
    var m2 := PutCell(m1, 4, q.b);
    PutIs(m2, 8, 2, 0, q.c);
    CellIs(m, 8, 2, 0);
    var m3 := PutCell(m2, 8, q.c);
    PutIs(m3, 12, 3, 0, q.d);
    CellIs(m, 12, 3, 0);
  }

  lemma Column1(m: Quads, q: Quad)
    ensures Quad(Cell(m, 1), Cell(m, 5), Cell(m, 9), Cell(m, 13)) == m.q1
    ensures PutCell(PutCell(PutCell(PutCell(m, 1, q.a), 5, q.b), 9, q.c), 13, q.d) == m.(q1 := q)
  {
    hide Cell, PutCell;
    PutIs(m, 1, 0, 1, q.a);
    CellIs(m, 1, 0, 1);
    var m1 := PutCell(m, 1, q.a);
    PutIs(m1, 5, 1, 1, q.b);
    CellIs(m, 5, 1, 1);
    var m2 := PutCell(m1, 5, q.b);
    PutIs(m2, 9, 2, 1, q.c);
    CellIs(m, 9, 2, 1);
    var m3 := PutCell(m2, 9, q.c);
    PutIs(m3, 13, 3, 1, q.d);
    CellIs(m, 13, 3, 1);
  }

  lemma Column2(m: Quads, q: Quad)
    ensures Quad(Cell(m, 2), Cell(m, 6), Cell(m, 10), Cell(m, 14)) == m.q2
    ensures PutCell(PutCell(PutCell(PutCell(m, 2, q.a), 6, q.b), 10, q.c), 14, q.d) == m.(q2 := q)
  {
    hide Cell, PutCell;
    PutIs(m, 2, 0, 2, q.a);
    CellIs(m, 2, 0, 2);
    var m1 := PutCell(m, 2, q.a);
    PutIs(m1, 6, 1, 2, q.b);
    CellIs(m, 6, 1, 2);
    var m2 := PutCell(m1, 6, q.b);
    PutIs(m2, 10, 2, 2, q.c);
    CellIs(m, 10, 2, 2);
    var m3 := PutCell(m2, 10, q.c);
    PutIs(m3, 14, 3, 2, q.d);
    CellIs(m, 14, 3, 2);
  }

  lemma Column3(m: Quads, q: Quad)
    ensures Quad(Cell(m, 3), Cell(m, 7), Cell(m, 11), Cell(m, 15)) == m.q3
    ensures PutCell(PutCell(PutCell(PutCell(m, 3, q.a), 7, q.b), 11, q.c), 15, q.d) == m.(q3 := q)
  {
    hide Cell, PutCell;
    PutIs(m, 3, 0, 3, q.a);
    CellIs(m, 3, 0, 3);
    var m1 := PutCell(m, 3, q.a);
    PutIs(m1, 7, 1, 3, q.b);
    CellIs(m, 7, 1, 3);
    var m2 := PutCell(m1, 7, q.b);
    PutIs(m2, 11, 2, 3, q.c);
    CellIs(m, 11, 2, 3);
    var m3 := PutCell(m2, 11, q.c);
    PutIs(m3, 15, 3, 3, q.d);
    CellIs(m, 15, 3, 3);
  }

  lemma ColumnsByQuads(m: Quads)
    ensures Columns(Flat(m)) == Flat(Down(m))
  {
    hide Quarter, QuarterAt, Flat, Cell, PutCell;
    var m1 := m.(q0 := Quarter(m.q0));
    var m2 := m1.(q1 := Quarter(m.q1));
    var m3 := m2.(q2 := Quarter(m.q2));
    Column0(m, Quarter(m.q0));
    Column1(m1, Quarter(m.q1));
    Column2(m2, Quarter(m.q2));
    Column3(m3, Quarter(m.q3));
    QuarterOnCells(m, 0, 4, 8, 12);
    QuarterOnCells(m1, 1, 5, 9, 13);
    QuarterOnCells(m2, 2, 6, 10, 14);
    QuarterOnCells(m3, 3, 7, 11, 15);
  }

  lemma Diagonal0(m: Quads, q: Quad)
    ensures var t := Untwist(m);
            && Quad(Cell(t, 0), Cell(t, 5), Cell(t, 10), Cell(t, 15)) == m.q0
            && PutCell(PutCell(PutCell(PutCell(t, 0, q.a), 5, q.b), 10, q.c), 15, q.d) == Untwist(m.(q0 := q))
  {
    var t := Untwist(m);
    hide Cell, PutCell;
    PutIs(t, 0, 0, 0, q.a);
    CellIs(t, 0, 0, 0);
    var m1 := PutCell(t, 0, q.a);
    PutIs(m1, 5, 1, 1, q.b);
    CellIs(t, 5, 1, 1);
    var m2 := PutCell(m1, 5, q.b);
    PutIs(m2, 10, 2, 2, q.c);
    CellIs(t, 10, 2, 2);
    var m3 := PutCell(m2, 10, q.c);
    PutIs(m3, 15, 3, 3, q.d);
    CellIs(t, 15, 3, 3);
  }

  lemma Diagonal1(m: Quads, q: Quad)
    ensures var t := Untwist(m);
            && Quad(Cell(t, 1), Cell(t, 6), Cell(t, 11), Cell(t, 12)) == m.q1
            && PutCell(PutCell(PutCell(PutCell(t, 1, q.a), 6, q.b), 11, q.c), 12, q.d) == Untwist(m.(q1 := q))
  {
    var t := Untwist(m);
    hide Cell, PutCell;
    PutIs(t, 1, 0, 1, q.a);
    CellIs(t, 1, 0, 1);
    var m1 := PutCell(t, 1, q.a);
    PutIs(m1, 6, 1, 2, q.b);
    CellIs(t, 6, 1, 2);
    var m2 := PutCell(m1, 6, q.b);
    PutIs(m2, 11, 2, 3, q.c);
    CellIs(t, 11, 2, 3);
    var m3 := PutCell(m2, 11, q.c);
    PutIs(m3, 12, 3, 0, q.d);
    CellIs(t, 12, 3, 0);
  }

  lemma Diagonal2(m: Quads, q: Quad)
    ensures var t := Untwist(m);
            && Quad(Cell(t, 2), Cell(t, 7), Cell(t, 8), Cell(t, 13)) == m.q2
            && PutCell(PutCell(PutCell(PutCell(t, 2, q.a), 7, q.b), 8, q.c), 13, q.d) == Untwist(m.(q2 := q))
  {
    var t := Untwist(m);
    hide Cell, PutCell;
    PutIs(t, 2, 0, 2, q.a);
    CellIs(t, 2, 0, 2);
    var m1 := PutCell(t, 2, q.a);
    PutIs(m1, 7, 1, 3, q.b);
    CellIs(t, 7, 1, 3);
    var m2 := PutCell(m1, 7, q.b);
    PutIs(m2, 8, 2, 0, q.c);
    CellIs(t, 8, 2, 0);
    var m3 := PutCell(m2, 8, q.c);
    PutIs(m3, 13, 3, 1, q.d);
    CellIs(t, 13, 3, 1);
  }

  lemma Diagonal3(m: Quads, q: Quad)
    ensures var t := Untwist(m);
            && Quad(Cell(t, 3), Cell(t, 4), Cell(t, 9), Cell(t, 14)) == m.q3
            && PutCell(PutCell(PutCell(PutCell(t, 3, q.a), 4, q.b), 9, q.c), 14, q.d) == Untwist(m.(q3 := q))
  {
    var t := Untwist(m);
    hide Cell, PutCell;
    PutIs(t, 3, 0, 3, q.a);
    CellIs(t, 3, 0, 3);
    var m1 := PutCell(t, 3, q.a);
    PutIs(m1, 4, 1, 0, q.b);
    CellIs(t, 4, 1, 0);
    var m2 := PutCell(m1, 4, q.b);
    PutIs(m2, 9, 2, 1, q.c);
    CellIs(t, 9, 2, 1);
    var m3 := PutCell(m2, 9, q.c);
    PutIs(m3, 14, 3, 2, q.d);
    CellIs(t, 14, 3, 2);
  }

  /** A diagonal round is a column round on turned rows. */
  lemma DiagonalsByQuads(m: Quads)
    ensures Diagonals(Flat(m)) == Flat(Untwist(Down(Twist(m))))
  {
    var t := Twist(m);
    assert Untwist(t) == m;
    hide Quarter, QuarterAt, Flat, Cell, PutCell, Twist, Untwist;
    var t1 := t.(q0 := Quarter(t.q0));
    var t2 := t1.(q1 := Quarter(t.q1));
    var t3 := t2.(q2 := Quarter(t.q2));
    Diagonal0(t, Quarter(t.q0));
    Diagonal1(t1, Quarter(t.q1));
    Diagonal2(t2, Quarter(t.q2));
    Diagonal3(t3, Quarter(t.q3));
    QuarterOnCells(m, 0, 5, 10, 15);
    QuarterOnCells(Untwist(t1), 1, 6, 11, 12);
    QuarterOnCells(Untwist(t2), 2, 7, 8, 13);
    QuarterOnCells(Untwist(t3), 3, 4, 9, 14);
  }

  lemma DoubleByQuads(m: Quads)
    ensures Diagonals(Columns(Flat(m))) == Flat(Untwist(Down(Twist(Down(m)))))
  {
    hide Columns, Diagonals, Flat, Down, Twist, Untwist;
    ColumnsByQuads(m);
    DiagonalsByQuads(Down(m));
  }

  /** n double rounds. */
  function Rounds(s: Matrix, n: nat): Matrix {
    if n == 0 then s else Diagonals(Columns(Rounds(s, n - 1)))
  }

  function Unrounds(s: Matrix, n: nat): Matrix
    decreases n
  {
    if n == 0 then s else Unrounds(Uncolumns(Undiagonals(s)), n - 1)
  }

  /** The double-round loop, before the input is added back, is a bijection for every number of rounds. */
  lemma {:induction false} RoundsBijective(s: Matrix, n: nat)
    ensures Unrounds(Rounds(s, n), n) == s && Rounds(Unrounds(s, n), n) == s
    decreases n
  {
    hide Columns, Diagonals, Uncolumns, Undiagonals;
    if n > 0 {
      var r := Rounds(s, n - 1);
      DiagonalsBijective(Columns(r));
      ColumnsBijective(r);
      RoundsBijective(s, n - 1);
      DiagonalsBijective(s);
      ColumnsBijective(Undiagonals(s));
      RoundsBijective(Uncolumns(Undiagonals(s)), n - 1);
    }
  }

  /* ----- the key stream ----- */

  function AddMatrix(s: Matrix, t: Matrix): Matrix {
    seq(16, i requires 0 <= i < 16 => Plus(s[i], t[i]))
  }

  /** The 64 key bytes for one block. */
  function Keystream(s: Matrix, rounds: byte): (b: seq<bv8>)
    ensures |b| == 64
  {
    Serialize(AddMatrix(Rounds(s, (rounds + 1) / 2), s))
  }

  /** One half line of the macro QUARTERROUND. */
  method HalfLine(x: array<bv32>, p: nat, q: nat, r: nat, c: bv6)
    requires x.Length == 16 && p < 16 && q < 16 && r < 16 && p != q && p != r && q != r && 0 < c < 32
    modifies x
    ensures var m := Mix(old(x[p]), old(x[q]), old(x[r]), c);
            x[p] == m.0 && x[r] == m.1
    ensures forall i :: 0 <= i < 16 && i != p && i != r ==> x[i] == old(x[i])
  {
    hide Rotl;
    x[p] := Plus(x[p], x[q]);
    x[r] := Rotl(Xor(x[r], x[p]), c);
  }

  lemma SetIs(s: Matrix, a: nat, b: nat, c: nat, d: nat, q: Quad, t: seq<bv32>)
    requires Four(a, b, c, d) && |t| == 16 && t[a] == q.a && t[b] == q.b && t[c] == q.c && t[d] == q.d
    requires forall i :: 0 <= i < 16 && i != a && i != b && i != c && i != d ==> t[i] == s[i]
    ensures t == Set(s, a, b, c, d, q)
  {
  }

  /** The macro QUARTERROUND, eight assignments on the local array. */
  method QuarterRound(x: array<bv32>, a: nat, b: nat, c: nat, d: nat)
    requires x.Length == 16 && Four(a, b, c, d)
    modifies x
    ensures x[..] == QuarterAt(old(x[..]), a, b, c, d)
  {
    hide Mix;
    ghost var s := x[..];
    HalfLine(x, a, b, d, 16);
    HalfLine(x, c, d, b, 12);
    HalfLine(x, a, b, d, 8);
    HalfLine(x, c, d, b, 7);
    ghost var q := Quarter(Take(s, a, b, c, d));
    assert x[a] == q.a && x[b] == q.b && x[c] == q.c && x[d] == q.d;
    SetIs(s, a, b, c, d, q, x[..]);
  }

  /** `doublerounds`: rounds counted down by two, then the input added back and the words written out. */
  method DoubleRounds(output: array<bv8>, input: Matrix, rounds: byte)
    requires output.Length == 64
    modifies output
    ensures output[..] == Keystream(input, rounds)
  {
    hide QuarterAt, StoreWord;
    var x := new bv32[16];
    for i := 0 to 16
      invariant x[..i] == input[..i]
    {
      x[i] := input[i];
    }
    assert x[..] == input;
    var i := rounds as int;
    ghost var n := 0;
    while i > 0
      invariant x[..] == Rounds(input, n) && i == rounds - 2 * n && i >= -1
    {
      QuarterRound(x, 0, 4, 8, 12);
      QuarterRound(x, 1, 5, 9, 13);
      QuarterRound(x, 2, 6, 10, 14);
      QuarterRound(x, 3, 7, 11, 15);
      QuarterRound(x, 0, 5, 10, 15);
      QuarterRound(x, 1, 6, 11, 12);
      QuarterRound(x, 2, 7, 8, 13);
      QuarterRound(x, 3, 4, 9, 14);
      i := i - 2;
      n := n + 1;
    }
    AddInput(x, input);
    StoreMatrix(output, x);
  }

  method AddInput(x: array<bv32>, input: Matrix)
    requires x.Length == 16
    modifies x
    ensures x[..] == AddMatrix(old(x[..]), input)
  {
    hide Plus;
    ghost var before, sum := x[..], AddMatrix(x[..], input);
    assert forall j :: 0 <= j < 16 ==> sum[j] == Plus(before[j], input[j]);
    for i := 0 to 16
      invariant forall j :: 0 <= j < i ==> x[j] == sum[j]
      invariant forall j :: i <= j < 16 ==> x[j] == before[j]
    {
      x[i] := Plus(x[i], input[i]);
    }
    assert x[..] == sum;
  }

  method StoreMatrix(output: array<bv8>, x: array<bv32>)
    requires output.Length == 64 && x.Length == 16
    modifies output
    ensures output[..] == Serialize(x[..])
  {
    hide StoreWord;
    ghost var ws := x[..];
    for i := 0 to 16
      invariant output[..4 * i] == Serialize(ws[..i])
    {
      PutWord(output, 4 * i, x[i]);
      assert ws[..i + 1][..i] == ws[..i] && ws[..i + 1][i] == x[i];
    }
    assert output[..64] == output[..] && ws[..16] == ws;
  }

  /** U32TO8_LITTLE on a little-endian host. */
  method PutWord(output: array<bv8>, off: nat, w: bv32)
    requires off + 4 <= output.Length
    modifies output
    ensures output[..off + 4] == old(output[..off]) + StoreWord(w)
  {
    hide StoreWord;
    var b := StoreWord(w);
    output[off], output[off + 1], output[off + 2], output[off + 3] := b[0], b[1], b[2], b[3];
    assert output[..off] == old(output[..off]);
    assert output[off..off + 4] == [output[off], output[off + 1], output[off + 2], output[off + 3]];
    assert b == [b[0], b[1], b[2], b[3]];
    assert output[..off + 4] == output[..off] + output[off..off + 4];
  }

  /** Each word of the key stream, less the rounds' word, is the input's word. */
  lemma FeedForward(s: Matrix, rounds: byte, i: nat)
    requires i < 16
    ensures var k := Keystream(s, rounds)[4 * i..4 * i + 4];
            k == StoreWord(Plus(Rounds(s, (rounds + 1) / 2)[i], s[i]))
            && Minus(LoadWord(k), Rounds(s, (rounds + 1) / 2)[i]) == s[i]
  {
    hide Rounds, Plus, Minus, StoreWord, LoadWord, Serialize;
    var r := Rounds(s, (rounds + 1) / 2);
    SerializeAt(AddMatrix(r, s), i);
    WordRoundTrip(Plus(r[i], s[i]));
    PlusCommutative(r[i], s[i]);
    AddBack(s[i], r[i]);
  }
}
