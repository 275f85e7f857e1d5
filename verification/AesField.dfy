/** The field arithmetic under dev/algorithmic/src/crypt-aes.cpp: xtime, Multiply, the columns of
    MixColumns and InvMixColumns, and what the S-box computes.

    The inversion of MixColumns is proved as algebra over Add and Xtime: applying the column step twice
    is the same as the cheap step Fold, Fold undoes itself, and the inverse column step is the column
    step after Fold. */
module AesField {

  import opened AesTables

  /** Multiplication by x, as the source computes it. */
  function Xtime(x: bv8): bv8 {
    (x << 1) ^ (((x >> 7) & 1) * 0x1b)
  }

  /** Multiply of the source; only the five lowest bits of y take part. */
  function Multiply(x: bv8, y: bv8): bv8 {
    ((y & 1) * x) ^
    (((y >> 1) & 1) * Xtime(x)) ^
    (((y >> 2) & 1) * Xtime(Xtime(x))) ^
    (((y >> 3) & 1) * Xtime(Xtime(Xtime(x)))) ^
    (((y >> 4) & 1) * Xtime(Xtime(Xtime(Xtime(x)))))
  }

  function Term(y: bv8, mask: bv8, x: bv8): bv8 {
    if y & mask != 0 then x else 0
  }

  /** The product of two bytes in GF(2^8), section 4.2.1 of FIPS 197: x times each power in y. */
  function Product(x: bv8, y: bv8): bv8 {
    var x1 := Xtime(x);
    var x2 := Xtime(x1);
    var x3 := Xtime(x2);
    var x4 := Xtime(x3);
    var x5 := Xtime(x4);
    var x6 := Xtime(x5);
    var x7 := Xtime(x6);
    Term(y, 0x01, x) ^ Term(y, 0x02, x1) ^ Term(y, 0x04, x2) ^ Term(y, 0x08, x3) ^
    Term(y, 0x10, x4) ^ Term(y, 0x20, x5) ^ Term(y, 0x40, x6) ^ Term(y, 0x80, x7)
  }

  /** xtime is doubling modulo the polynomial 0x11B, section 4.2.1 of FIPS 197. */
  lemma XtimeDoubles(x: bv8)
    ensures var d := (x as bv16) << 1;
            Xtime(x) as bv16 == if d & 0x100 != 0 then d ^ 0x11B else d
  {
    assert x & 0x80 == 0 || x & 0x80 == 0x80;
  }

  /** The truncated product is the field product for every factor the cipher uses. */
  lemma MultiplyIsProduct(x: bv8, y: bv8)
    requires y < 0x20
    ensures Multiply(x, y) == Product(x, y)
  {
    hide Xtime;
  }

  // ---------- the S-box, section 5.1.1 of FIPS 197 ----------

  function Affine(y: bv8): bv8 {
    y ^ ((y << 1) | (y >> 7)) ^ ((y << 2) | (y >> 6)) ^ ((y << 3) | (y >> 5)) ^ ((y << 4) | (y >> 4)) ^ 0x63
  }

  function Unaffine(b: bv8): bv8 {
    ((b << 1) | (b >> 7)) ^ ((b << 3) | (b >> 5)) ^ ((b << 6) | (b >> 2)) ^ 0x05
  }

  lemma AffineUndone(b: bv8)
    ensures Affine(Unaffine(b)) == b
  {
  }

  lemma InverseRow0(x: bv8)
    requires 0x00 < x < 0x10
    ensures Product(x, Unaffine(SBox(x))) == 1
  {
  }

  lemma InverseRow1(x: bv8)
    requires 0x10 <= x < 0x20
    ensures Product(x, Unaffine(SBox(x))) == 1
  {
  }

  lemma InverseRow2(x: bv8)
    requires 0x20 <= x < 0x30
    ensures Product(x, Unaffine(SBox(x))) == 1
  {
  }

  lemma InverseRow3(x: bv8)
    requires 0x30 <= x < 0x40
    ensures Product(x, Unaffine(SBox(x))) == 1
  {
  }

  lemma InverseRow4(x: bv8)
    requires 0x40 <= x < 0x50
    ensures Product(x, Unaffine(SBox(x))) == 1
  {
  }

  lemma InverseRow5(x: bv8)
    requires 0x50 <= x < 0x60
    ensures Product(x, Unaffine(SBox(x))) == 1
  {
  }

  lemma InverseRow6(x: bv8)
    requires 0x60 <= x < 0x70
    ensures Product(x, Unaffine(SBox(x))) == 1
  {
  }

  lemma InverseRow7(x: bv8)
    requires 0x70 <= x < 0x80
    ensures Product(x, Unaffine(SBox(x))) == 1
  {
  }

  lemma InverseRow8(x: bv8)
    requires 0x80 <= x < 0x90
    ensures Product(x, Unaffine(SBox(x))) == 1
  {
  }

  lemma InverseRow9(x: bv8)
    requires 0x90 <= x < 0xA0
    ensures Product(x, Unaffine(SBox(x))) == 1
  {
  }

  lemma InverseRowA(x: bv8)
    requires 0xA0 <= x < 0xB0
    ensures Product(x, Unaffine(SBox(x))) == 1
  {
  }

  lemma InverseRowB(x: bv8)
    requires 0xB0 <= x < 0xC0
    ensures Product(x, Unaffine(SBox(x))) == 1
  {
  }

  lemma InverseRowC(x: bv8)
    requires 0xC0 <= x < 0xD0
    ensures Product(x, Unaffine(SBox(x))) == 1
  {
  }

  lemma InverseRowD(x: bv8)
    requires 0xD0 <= x < 0xE0
    ensures Product(x, Unaffine(SBox(x))) == 1
  {
  }

  lemma InverseRowE(x: bv8)
    requires 0xE0 <= x < 0xF0
    ensures Product(x, Unaffine(SBox(x))) == 1
  {
  }

  lemma InverseRowF(x: bv8)
    requires 0xF0 <= x
    ensures Product(x, Unaffine(SBox(x))) == 1
  {
  }

  lemma InverseRows0(x: bv8)
    requires 0x00 < x < 0x40
    ensures Product(x, Unaffine(SBox(x))) == 1
  {
    hide SBox, Product, Unaffine;
    if x < 0x10 {
      InverseRow0(x);
    } else if x < 0x20 {
      InverseRow1(x);
    } else if x < 0x30 {
      InverseRow2(x);
    } else {
      InverseRow3(x);
    }
  }

  lemma InverseRows1(x: bv8)
    requires 0x40 <= x < 0x80
    ensures Product(x, Unaffine(SBox(x))) == 1
  {
    hide SBox, Product, Unaffine;
    if x < 0x50 {
      InverseRow4(x);
    } else if x < 0x60 {
      InverseRow5(x);
    } else if x < 0x70 {
      InverseRow6(x);
    } else {
      InverseRow7(x);
    }
  }

  lemma InverseRows2(x: bv8)
    requires 0x80 <= x < 0xC0
    ensures Product(x, Unaffine(SBox(x))) == 1
  {
    hide SBox, Product, Unaffine;
    if x < 0x90 {
      InverseRow8(x);
    } else if x < 0xA0 {
      InverseRow9(x);
    } else if x < 0xB0 {
      InverseRowA(x);
    } else {
      InverseRowB(x);
    }
  }

  lemma InverseRows3(x: bv8)
    requires 0xC0 <= x
    ensures Product(x, Unaffine(SBox(x))) == 1
  {
    hide SBox, Product, Unaffine;
    if x < 0xD0 {
      InverseRowC(x);
    } else if x < 0xE0 {
      InverseRowD(x);
    } else if x < 0xF0 {
      InverseRowE(x);
    } else {
      InverseRowF(x);
    }
  }

  lemma ZeroInverse()
    ensures Unaffine(SBox(0)) == 0
  {
  }

  lemma InverseByTable(x: bv8)
    requires x != 0
    ensures Product(x, Unaffine(SBox(x))) == 1
  {
    hide SBox, Product, Unaffine;
    if x < 0x40 {
      InverseRows0(x);
    } else if x < 0x80 {
      InverseRows1(x);
    } else if x < 0xC0 {
      InverseRows2(x);
    } else {
      InverseRows3(x);
    }
  }

  /** The S-box table is the affine map of the field inverse, with 0 standing for its own inverse. */
  lemma SBoxFromField(x: bv8)
    ensures exists y :: Affine(y) == SBox(x) && if x == 0 then y == 0 else Product(x, y) == 1
  {
    hide SBox, Product, Affine, Unaffine;
    AffineUndone(SBox(x));
    if x == 0 {
      ZeroInverse();
    } else {
      InverseByTable(x);
    }
  }

  // ---------- addition, section 4.1 of FIPS 197 ----------

  function Add(x: bv8, y: bv8): bv8 {
    x ^ y
  }

  lemma AddCommutes(x: bv8, y: bv8)
    ensures Add(x, y) == Add(y, x)
  {
  }

  lemma AddAssociates(x: bv8, y: bv8, z: bv8)
    ensures Add(Add(x, y), z) == Add(x, Add(y, z))
  {
  }

  lemma AddUndoes(x: bv8, y: bv8)
    ensures Add(Add(x, y), y) == x
  {
  }

  lemma XtimeLinear(x: bv8, y: bv8)
    ensures Xtime(Add(x, y)) == Add(Xtime(x), Xtime(y))
  {
  }

  lemma Swap(x: bv8, y: bv8, z: bv8, w: bv8)
    ensures Add(Add(x, y), Add(z, w)) == Add(Add(x, z), Add(y, w))
  {
    hide Add;
    AddAssociates(x, y, Add(z, w));
    AddAssociates(y, z, w);
    AddCommutes(y, z);
    AddAssociates(z, y, w);
    AddAssociates(x, z, Add(y, w));
  }

  /** A summand on both sides of a sum drops out. */
  lemma AddBoth(x: bv8, y: bv8, t: bv8)
    ensures Add(Add(x, t), Add(y, t)) == Add(x, y)
  {
    hide Add;
    AddAssociates(Add(x, t), y, t);
    AddAssociates(x, t, y);
    AddCommutes(t, y);
    AddAssociates(x, y, t);
    AddUndoes(Add(x, y), t);
  }

  // ---------- one column ----------

  datatype Column = Column(a: bv8, b: bv8, c: bv8, d: bv8)

  /** A row of the matrix of section 5.1.3 of FIPS 197, times a column. */
  function MixByte(a: bv8, b: bv8, c: bv8, d: bv8): bv8 {
    Add(Add(Product(a, 0x02), Product(b, 0x03)), Add(c, d))
  }

  /** A row of the matrix of section 5.3.3 of FIPS 197, times a column. */
  function UnmixByte(a: bv8, b: bv8, c: bv8, d: bv8): bv8 {
    Add(Add(Product(a, 0x0e), Product(b, 0x0b)), Add(Product(c, 0x0d), Product(d, 0x09)))
  }

  function Mix(v: Column): Column {
    Column(MixByte(v.a, v.b, v.c, v.d), MixByte(v.b, v.c, v.d, v.a),
           MixByte(v.c, v.d, v.a, v.b), MixByte(v.d, v.a, v.b, v.c))
  }

  function Unmix(v: Column): Column {
    Column(UnmixByte(v.a, v.b, v.c, v.d), UnmixByte(v.b, v.c, v.d, v.a),
           UnmixByte(v.c, v.d, v.a, v.b), UnmixByte(v.d, v.a, v.b, v.c))
  }

  function FoldByte(a: bv8, c: bv8): bv8 {
    Add(a, Xtime(Xtime(Add(a, c))))
  }

  function Fold(v: Column): Column {
    Column(FoldByte(v.a, v.c), FoldByte(v.b, v.d), FoldByte(v.c, v.a), FoldByte(v.d, v.b))
  }

  /** Tmp of the source. */
  function Total(a: bv8, b: bv8, c: bv8, d: bv8): bv8 {
    Add(Add(a, b), Add(c, d))
  }

  /** How the source computes a mixed byte, with a single xtime. */
  function Trick(a: bv8, b: bv8, c: bv8, d: bv8): bv8 {
    Add(a, Add(Xtime(Add(a, b)), Total(a, b, c, d)))
  }

  lemma MixProducts(x: bv8)
    ensures Product(x, 0x02) == Xtime(x) && Product(x, 0x03) == Add(Xtime(x), x)
  {
    hide Xtime;
  }

  function Nine(x: bv8): bv8 {
    Add(x, Xtime(Xtime(Xtime(x))))
  }

  lemma ProductNine(x: bv8)
    ensures Product(x, 0x09) == Nine(x)
  {
    hide Xtime;
  }

  lemma ProductEleven(x: bv8)
    ensures Product(x, 0x0b) == Add(Nine(x), Xtime(x))
  {
    hide Xtime;
  }

  lemma ProductThirteen(x: bv8)
    ensures Product(x, 0x0d) == Add(Nine(x), Xtime(Xtime(x)))
  {
    hide Xtime;
  }

  lemma ProductFourteen(x: bv8)
    ensures Product(x, 0x0e) == Add(Nine(x), Add(x, Add(Xtime(x), Xtime(Xtime(x)))))
  {
    hide Xtime, Add, Product;
    var x3, y := Xtime(Xtime(Xtime(x))), Add(Xtime(x), Xtime(Xtime(x)));
    FourteenTerms(x);
    AddCommutes(x, x3);
    AddCommutes(x, y);
    AddBoth(x3, y, x);
    AddCommutes(x3, y);
  }

  lemma FourteenTerms(x: bv8)
    ensures Product(x, 0x0e) == Add(Add(Xtime(x), Xtime(Xtime(x))), Xtime(Xtime(Xtime(x))))
  {
    hide Xtime;
  }

  lemma TrickIsMix(a: bv8, b: bv8, c: bv8, d: bv8)
    ensures Trick(a, b, c, d) == MixByte(a, b, c, d)
  {
    hide Xtime, Add, Product;
    MixProducts(a);
    MixProducts(b);
    XtimeLinear(a, b);
    var x, y, u := Xtime(a), Xtime(b), Add(c, d);
    // a + ((x + y) + ((a + b) + u)) == (x + (y + b)) + u
    AddCommutes(Add(x, y), Add(Add(a, b), u));
    AddAssociates(a, b, u);
    AddAssociates(a, Add(b, u), Add(x, y));
    AddCommutes(a, Add(a, Add(Add(b, u), Add(x, y))));
    AddCommutes(a, Add(Add(b, u), Add(x, y)));
    AddUndoes(Add(Add(b, u), Add(x, y)), a);
    AddCommutes(Add(b, u), Add(x, y));
    AddAssociates(Add(x, y), b, u);
    AddAssociates(x, y, b);
  }

  lemma NineLinear(x: bv8, y: bv8)
    ensures Nine(Add(x, y)) == Add(Nine(x), Nine(y))
  {
    hide Xtime, Add;
    XtimeLinear(x, y);
    XtimeLinear(Xtime(x), Xtime(y));
    XtimeLinear(Xtime(Xtime(x)), Xtime(Xtime(y)));
    Swap(x, y, Xtime(Xtime(Xtime(x))), Xtime(Xtime(Xtime(y))));
  }

  /** The sum of two neighbouring mixed bytes. */
  lemma TrickPair(a: bv8, b: bv8, c: bv8, d: bv8)
    ensures Add(Trick(a, b, c, d), Trick(b, c, d, a)) == Add(Add(a, b), Xtime(Add(a, c)))
  {
    hide Xtime, Add;
    var t := Total(a, b, c, d);
    TotalRotates(a, b, c, d);
    var x, y := Xtime(Add(a, b)), Xtime(Add(b, c));
    Swap(a, Add(x, t), b, Add(y, t));
    AddBoth(x, y, t);
    XtimeLinear(Add(a, b), Add(b, c));
    AddCommutes(b, c);
    AddBoth(a, c, b);
  }

  lemma TotalRotates(a: bv8, b: bv8, c: bv8, d: bv8)
    ensures Total(b, c, d, a) == Total(a, b, c, d)
  {
    hide Add;
    AddCommutes(Add(b, c), Add(d, a));
    AddCommutes(d, a);
    Swap(a, d, b, c);
    AddCommutes(d, c);
  }

  /** Mixing keeps the sum of the column. */
  lemma TotalKept(a: bv8, b: bv8, c: bv8, d: bv8)
    ensures Total(Trick(a, b, c, d), Trick(b, c, d, a), Trick(c, d, a, b), Trick(d, a, b, c)) == Total(a, b, c, d)
  {
    hide Xtime, Add, Trick;
    TrickPair(a, b, c, d);
    TrickPair(c, d, a, b);
    AddCommutes(a, c);
    AddBoth(Add(a, b), Add(c, d), Xtime(Add(a, c)));
  }

  lemma TrickTwice(a: bv8, b: bv8, c: bv8, d: bv8)
    ensures Trick(Trick(a, b, c, d), Trick(b, c, d, a), Trick(c, d, a, b), Trick(d, a, b, c)) == FoldByte(a, c)
  {
    hide Xtime, Add, Total;
    TotalKept(a, b, c, d);
    TrickPair(a, b, c, d);
    var t, s, w := Total(a, b, c, d), Add(a, b), Xtime(Add(a, c));
    // (a + (X(s) + t)) + (X(s + w) + t) == a + X(w)
    AddAssociates(a, Xtime(s), t);
    AddBoth(Add(a, Xtime(s)), Xtime(Add(s, w)), t);
    XtimeLinear(s, w);
    AddCommutes(Xtime(s), Xtime(w));
    AddBoth(a, Xtime(w), Xtime(s));
  }

  lemma FoldTwice(a: bv8, c: bv8)
    ensures FoldByte(FoldByte(a, c), FoldByte(c, a)) == a
  {
    hide Xtime, Add;
    AddCommutes(a, c);
    var t := Xtime(Xtime(Add(a, c)));
    AddBoth(a, c, t);
    AddUndoes(a, t);
  }

  /** The inverse row, regrouped by powers of x. */
  lemma UnmixForm(a: bv8, b: bv8, c: bv8, d: bv8)
    ensures UnmixByte(a, b, c, d) ==
            Add(Nine(Total(a, b, c, d)), Add(a, Add(Xtime(Add(a, b)), Xtime(Xtime(Add(a, c))))))
  {
    hide Xtime, Add, Nine, Product;
    ProductFourteen(a);
    ProductEleven(b);
    ProductThirteen(c);
    ProductNine(d);
    NineLinear(Add(a, b), Add(c, d));
    NineLinear(a, b);
    NineLinear(c, d);
    var x, y, f, g := Xtime(a), Xtime(Xtime(a)), Xtime(b), Xtime(Xtime(c));
    var e := Add(a, Add(x, y));
    Swap(Nine(a), e, Nine(b), f);
    AddAssociates(Nine(c), g, Nine(d));
    AddCommutes(g, Nine(d));
    AddAssociates(Nine(c), Nine(d), g);
    Swap(Add(Nine(a), Nine(b)), Add(e, f), Add(Nine(c), Nine(d)), g);
    AddAssociates(a, Add(x, y), f);
    AddAssociates(a, Add(Add(x, y), f), g);
    AddAssociates(Add(x, y), f, g);
    Swap(x, y, f, g);
    XtimeLinear(a, b);
    XtimeLinear(a, c);
    XtimeLinear(Xtime(a), Xtime(c));
  }

  lemma FoldPair(a: bv8, b: bv8, c: bv8, d: bv8)
    ensures Add(FoldByte(a, c), FoldByte(b, d)) == Add(Add(a, b), Xtime(Xtime(Total(a, b, c, d))))
  {
    hide Xtime, Add;
    var p, q := Xtime(Xtime(Add(a, c))), Xtime(Xtime(Add(b, d)));
    Swap(a, p, b, q);
    XtimeLinear(Xtime(Add(a, c)), Xtime(Add(b, d)));
    XtimeLinear(Add(a, c), Add(b, d));
    Swap(a, c, b, d);
  }

  lemma TrickFold(a: bv8, b: bv8, c: bv8, d: bv8)
    ensures Trick(FoldByte(a, c), FoldByte(b, d), FoldByte(c, a), FoldByte(d, b)) == UnmixByte(a, b, c, d)
  {
    hide Xtime, Add, UnmixByte, FoldByte;
    UnmixForm(a, b, c, d);
    FoldPair(a, b, c, d);
    FoldPair(c, d, a, b);
    AddCommutes(Add(a, b), Add(c, d));
    var t, s, w := Total(a, b, c, d), Add(a, b), Xtime(Xtime(Total(a, b, c, d)));
    AddBoth(s, Add(c, d), w);
    XtimeLinear(s, w);
    FoldShape(a, c);
    var p, x, y := Xtime(Xtime(Add(a, c))), Xtime(s), Xtime(w);
    // (a + p) + ((x + y) + t) == (t + y) + (a + (x + p))
    AddAssociates(x, y, t);
    AddCommutes(y, t);
    AddCommutes(x, Add(t, y));
    AddCommutes(Add(a, p), Add(Add(t, y), x));
    AddAssociates(Add(t, y), x, Add(a, p));
    AddCommutes(x, Add(a, p));
    AddAssociates(a, p, x);
    AddCommutes(p, x);
  }

  lemma FoldShape(a: bv8, c: bv8)
    ensures FoldByte(a, c) == Add(a, Xtime(Xtime(Add(a, c))))
  {
  }

  lemma MixTwice(v: Column)
    ensures Mix(Mix(v)) == Fold(v)
  {
    hide MixByte, FoldByte, Trick;
    TrickIsMix(v.a, v.b, v.c, v.d);
    TrickIsMix(v.b, v.c, v.d, v.a);
    TrickIsMix(v.c, v.d, v.a, v.b);
    TrickIsMix(v.d, v.a, v.b, v.c);
    var w := Mix(v);
    TrickIsMix(w.a, w.b, w.c, w.d);
    TrickIsMix(w.b, w.c, w.d, w.a);
    TrickIsMix(w.c, w.d, w.a, w.b);
    TrickIsMix(w.d, w.a, w.b, w.c);
    TrickTwice(v.a, v.b, v.c, v.d);
    TrickTwice(v.b, v.c, v.d, v.a);
    TrickTwice(v.c, v.d, v.a, v.b);
    TrickTwice(v.d, v.a, v.b, v.c);
  }

  lemma UnmixIsMixFold(v: Column)
    ensures Unmix(v) == Mix(Fold(v))
  {
    hide MixByte, UnmixByte, FoldByte, Trick;
    var w := Fold(v);
    TrickIsMix(w.a, w.b, w.c, w.d);
    TrickIsMix(w.b, w.c, w.d, w.a);
    TrickIsMix(w.c, w.d, w.a, w.b);
    TrickIsMix(w.d, w.a, w.b, w.c);
    TrickFold(v.a, v.b, v.c, v.d);
    TrickFold(v.b, v.c, v.d, v.a);
    TrickFold(v.c, v.d, v.a, v.b);
    TrickFold(v.d, v.a, v.b, v.c);
  }

  lemma FoldUndone(v: Column)
    ensures Fold(Fold(v)) == v
  {
    hide FoldByte;
    FoldTwice(v.a, v.c);
    FoldTwice(v.b, v.d);
    FoldTwice(v.c, v.a);
    FoldTwice(v.d, v.b);
  }

  /** The two column steps undo each other. */
  lemma ColumnsInverse(v: Column)
    ensures Unmix(Mix(v)) == v && Mix(Unmix(v)) == v
  {
    hide Mix, Unmix, Fold;
    // Unmix(Mix(v)) and Mix(Unmix(v)) are both Mix applied four times.
    UnmixIsMixFold(Mix(v));
    UnmixIsMixFold(v);
    MixTwice(v);
    MixTwice(Mix(v));
    MixTwice(Fold(v));
    FoldUndone(v);
  }
}
