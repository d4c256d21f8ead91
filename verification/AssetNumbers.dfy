/** Asset numbers: how they are printed, which strings the service accepts as one, and how the
    order of serial strings relates to the order of serials. */
module AssetNumbers {
  import opened Text

  // ---------- fmt.Sprintf("%04d") and strconv.Atoi ----------

  function Digit(d: nat): (c: char)
    requires d < 10
  {
    ('0' as int + d) as char
  }

  predicate AllDigits(s: string) {
    forall i :: 0 <= i < |s| ==> IsDigit(s[i])
  }

  function Decimal(n: nat): (s: string)
    ensures s != "" && AllDigits(s)
  {
    if n < 10 then [Digit(n)] else Decimal(n / 10) + [Digit(n % 10)]
  }

  function PadTo(s: string, width: nat): string
    decreases width - |s|
  {
    if width <= |s| then s else PadTo("0" + s, width)
  }

  function Pad4(n: int): string {
    if n < 0 then "-" + PadTo(Decimal(-n), 3) else PadTo(Decimal(n), 4)
  }

  function DigitValue(c: char): nat
    requires IsDigit(c)
  {
    c as nat - '0' as nat
  }

  function DigitsValue(s: string): nat
    requires AllDigits(s)
  {
    if s == "" then 0 else 10 * DigitsValue(s[..|s| - 1]) + DigitValue(s[|s| - 1])
  }

  function Atoi(s: string): Option<int> {
    var signed := s != "" && (s[0] == '+' || s[0] == '-');
    var digits := if signed then s[1..] else s;
    if digits == "" || !AllDigits(digits) then None
    else
      var value: int := DigitsValue(digits);
      Some(if signed && s[0] == '-' then 0 - value else value)
  }

  // The four digits of a number up to 9999.
  function Four(n: nat): (s: string)
    requires n <= 9999
    ensures |s| == 4 && AllDigits(s)
  {
    var r, q := n % 1000, n % 1000 % 100;
    [Digit(n / 1000), Digit(r / 100), Digit(q / 10), Digit(q % 10)]
  }

  lemma FourDigits(n: nat) returns (a: nat, b: nat, c: nat, d: nat)
    requires n <= 9999
    ensures a < 10 && b < 10 && c < 10 && d < 10 && n == 1000 * a + 100 * b + 10 * c + d
    ensures Four(n) == [Digit(a), Digit(b), Digit(c), Digit(d)]
  {
    var r, q := n % 1000, n % 1000 % 100;
    a, b, c, d := n / 1000, r / 100, q / 10, q % 10;
  }

  lemma DecimalSteps(n: nat)
    ensures n < 10 ==> Decimal(n) == [Digit(n)]
    ensures 10 <= n ==> Decimal(n) == Decimal(n / 10) + [Digit(n % 10)]
  {
  }

  lemma PadSteps(s: string)
    ensures |s| == 1 ==> PadTo(s, 4) == "000" + s
    ensures |s| == 2 ==> PadTo(s, 4) == "00" + s
    ensures |s| == 3 ==> PadTo(s, 4) == "0" + s
    ensures 4 <= |s| ==> PadTo(s, 4) == s
  {
    var a := "0" + s;
    var b := "0" + a;
    var c := "0" + b;
    assert b == "00" + s && c == "000" + s;
    if |s| == 1 {
      assert PadTo(s, 4) == PadTo(a, 4) == PadTo(b, 4) == PadTo(c, 4) == c;
    } else if |s| == 2 {
      assert PadTo(s, 4) == PadTo(a, 4) == PadTo(b, 4) == b;
    } else if |s| == 3 {
      assert PadTo(s, 4) == PadTo(a, 4) == a;
    }
  }

  lemma DecimalSnoc(n: nat, d: nat)
    requires 0 < n && d < 10
    ensures Decimal(10 * n + d) == Decimal(n) + [Digit(d)]
  {
    assert (10 * n + d) / 10 == n && (10 * n + d) % 10 == d;
  }

  lemma Pad4IsFour(n: nat)
    requires n <= 9999
    ensures Pad4(n) == Four(n)
  {
    hide Decimal, PadTo, Four, Digit;
    var a, b, c, d := FourDigits(n);
    DecimalDigits(n, a, b, c, d);
    PadSteps(Decimal(n));
    ZeroDigit();
  }

  // The decimal digits of a number, without those in front that are zero.
  lemma DecimalDigits(n: nat, a: nat, b: nat, c: nat, d: nat)
    requires a < 10 && b < 10 && c < 10 && d < 10 && n == 1000 * a + 100 * b + 10 * c + d
    ensures var s, x, y, z := Decimal(n), [Digit(a)], [Digit(b)], [Digit(c)];
      (0 < a ==> s == x + y + z + [Digit(d)]) && (a == 0 && 0 < b ==> s == y + z + [Digit(d)]) &&
      (a == b == 0 && 0 < c ==> s == z + [Digit(d)]) && (a == b == c == 0 ==> s == [Digit(d)])
  {
    hide Decimal, Digit;
    if 0 < a {
      var m := 100 * a + 10 * b + c;
      assert n == 10 * m + d;
      ThreeDigits(a, b, c);
      DecimalSnoc(m, d);
    } else if 0 < b {
      assert n == 100 * b + 10 * c + d;
      ThreeDigits(b, c, d);
    } else if 0 < c {
      assert n == 10 * c + d;
      TwoDigits(c, d);
    } else {
      assert n == d;
      DecimalSteps(d);
    }
  }

  lemma TwoDigits(a: nat, b: nat)
    requires 0 < a < 10 && b < 10
    ensures Decimal(10 * a + b) == [Digit(a)] + [Digit(b)]
  {
    hide Decimal, Digit;
    DecimalSteps(a);
    DecimalSnoc(a, b);
  }

  lemma ThreeDigits(a: nat, b: nat, c: nat)
    requires 0 < a < 10 && b < 10 && c < 10
    ensures Decimal(100 * a + 10 * b + c) == [Digit(a)] + [Digit(b)] + [Digit(c)]
  {
    hide Decimal, Digit;
    TwoDigits(a, b);
    DecimalSnoc(10 * a + b, c);
  }

  lemma ZeroDigit()
    ensures Digit(0) == '0'
  {
  }

  lemma DigitsSnoc(s: string, c: char)
    requires AllDigits(s) && IsDigit(c)
    ensures AllDigits(s + [c]) && DigitsValue(s + [c]) == 10 * DigitsValue(s) + DigitValue(c)
  {
    assert (s + [c])[..|s|] == s;
  }

  lemma OneDigit(d: nat)
    requires d < 10
    ensures AllDigits([Digit(d)]) && IsDigit(Digit(d)) && DigitValue(Digit(d)) == d
  {
  }

  lemma {:induction false} DecimalReadsBack(n: nat)
    ensures DigitsValue(Decimal(n)) == n
  {
    if n < 10 {
      OneDigit(n);
      DigitsSnoc("", Digit(n));
      assert "" + [Digit(n)] == Decimal(n);
    } else {
      DecimalReadsBack(n / 10);
      OneDigit(n % 10);
      DigitsSnoc(Decimal(n / 10), Digit(n % 10));
    }
  }

  lemma {:induction false} ZeroFirst(s: string)
    requires AllDigits(s)
    ensures AllDigits("0" + s) && DigitsValue("0" + s) == DigitsValue(s)
    decreases |s|
  {
    ZeroDigit();
    OneDigit(0);
    if s == "" {
      DigitsSnoc("", '0');
    } else {
      var n := |s| - 1;
      ZeroFirst(s[..n]);
      DigitsSnoc("0" + s[..n], s[n]);
      DigitsSnoc(s[..n], s[n]);
      assert s == s[..n] + [s[n]] && "0" + s == "0" + s[..n] + [s[n]];
    }
  }

  lemma {:induction false} PadReadsBack(s: string, width: nat)
    requires AllDigits(s) && s != ""
    ensures AllDigits(PadTo(s, width)) && PadTo(s, width) != "" && DigitsValue(PadTo(s, width)) == DigitsValue(s)
    decreases width - |s|
  {
    hide DigitsValue;
    if |s| < width {
      ZeroFirst(s);
      PadReadsBack("0" + s, width);
    }
  }

  // Whatever the number, its padded text parses as it again.
  lemma Pad4ReadsBack(n: int)
    ensures Atoi(Pad4(n)) == Some(n)
  {
    hide PadTo, Decimal, DigitsValue;
    var m, width := if n < 0 then -n else n, if n < 0 then 3 else 4;
    DecimalReadsBack(m);
    PadReadsBack(Decimal(m), width);
    var digits := PadTo(Decimal(m), width);
    if n < 0 {
      assert Pad4(n) == "-" + digits && ("-" + digits)[1..] == digits;
    } else {
      assert IsDigit(digits[0]);
    }
  }

  // Parsing a printed serial gives the serial back.
  lemma AtoiFour(n: nat)
    requires n <= 9999
    ensures Atoi(Four(n)) == Some(n)
  {
    var a, b, c, d := FourDigits(n);
    OneDigit(a);
    OneDigit(b);
    OneDigit(c);
    OneDigit(d);
    var w, x, y, z := Digit(a), Digit(b), Digit(c), Digit(d);
    hide Digit, Four, DigitsValue, DigitValue, Decimal;
    assert DigitsValue("") == 0 by { EmptyDigits(); }
    DigitsSnoc("", w);
    DigitsSnoc([w], x);
    DigitsSnoc([w, x], y);
    DigitsSnoc([w, x, y], z);
    assert "" + [w] == [w] && [w] + [x] == [w, x] && [w, x] + [y] == [w, x, y] && [w, x, y] + [z] == [w, x, y, z];
    assert DigitsValue([w, x, y, z]) == n;
  }

  lemma EmptyDigits()
    ensures DigitsValue("") == 0
  {
  }

  // ---------- string order against numeric order ----------

  // The order in which MongoDB sorts strings.
  predicate Sorts(a: string, b: string) {
    a == "" || (b != "" && (a[0] < b[0] || (a[0] == b[0] && Sorts(a[1..], b[1..]))))
  }

  lemma SortsCons(x: char, y: char, a: string, b: string)
    ensures Sorts([x] + a, [y] + b) <==> x < y || (x == y && Sorts(a, b))
  {
    assert ([x] + a)[1..] == a && ([y] + b)[1..] == b;
  }

  lemma DigitOrder(d: nat, e: nat)
    requires d < 10 && e < 10
    ensures Digit(d) < Digit(e) <==> d < e
    ensures Digit(d) == Digit(e) <==> d == e
  {
  }

  // On four-digit serials, string order is numeric order.
  lemma FourSorts(m: nat, n: nat)
    requires m <= 9999 && n <= 9999
    ensures Sorts(Four(m), Four(n)) <==> m <= n
  {
    var a, b, c, d := FourDigits(m);
    var e, f, g, h := FourDigits(n);
    DigitOrder(a, e);
    DigitOrder(b, f);
    DigitOrder(c, g);
    DigitOrder(d, h);
    hide Digit, Four;
    SortsFour(Digit(a), Digit(b), Digit(c), Digit(d), Digit(e), Digit(f), Digit(g), Digit(h));
  }

  lemma SortsFour(a: char, b: char, c: char, d: char, e: char, f: char, g: char, h: char)
    ensures Sorts([a, b, c, d], [e, f, g, h]) <==>
      a < e || (a == e && (b < f || (b == f && (c < g || (c == g && (d < h || d == h))))))
  {
    SortsCons(d, h, "", "");
    SortsCons(c, g, [d], [h]);
    SortsCons(b, f, [c, d], [g, h]);
    SortsCons(a, e, [b, c, d], [f, g, h]);
    assert [a] + [b, c, d] == [a, b, c, d] && [b] + [c, d] == [b, c, d] && [c] + [d] == [c, d] && [d] + "" == [d];
    assert [e] + [f, g, h] == [e, f, g, h] && [f] + [g, h] == [f, g, h] && [g] + [h] == [g, h] && [h] + "" == [h];
  }

  // ---------- printing an asset number ----------

  // What the serial counts up within, apart from the tenant.
  datatype Group = Group(office: string, year: int, categoryNo: string, typeNumber: string)

  function Print(g: Group, serial: int): string {
    g.office + "-" + Pad4(g.year) + "-" + g.categoryNo + "-" + g.typeNumber + "-" + Pad4(serial)
  }

  function Prefix(g: Group): string {
    g.office + "-" + Pad4(g.year) + "-" + g.categoryNo + "-" + g.typeNumber + "-"
  }

  // The last four characters, as ingest reads the serial back.
  function LastFour(s: string): string
    requires 4 <= |s|
  {
    s[|s| - 4..]
  }

  function SerialText(serial: int): string
    requires 0 <= serial <= 10000
    ensures serial <= 9999 ==> SerialText(serial) == Four(serial)
    ensures serial == 10000 ==> SerialText(serial) == "0000"
  {
    if serial == 10000 then "0000" else Four(serial)
  }

  lemma Pad4TenThousand()
    ensures Pad4(10000) == "10000"
  {
    DecimalSteps(10000);
    DecimalSteps(1000);
    DecimalSteps(100);
    DecimalSteps(10);
    DecimalSteps(1);
    assert Decimal(10) == "10" && Decimal(100) == "100" && Decimal(1000) == "1000" && Decimal(10000) == "10000";
  }

  // The serial that ingest stores for a printed number: 10000 is cut down to "0000".
  lemma SerialOfPrint(g: Group, serial: int)
    requires 0 <= serial <= 10000
    ensures 4 <= |Print(g, serial)| && LastFour(Print(g, serial)) == SerialText(serial)
  {
    var p := Pad4(serial);
    if serial == 10000 {
      Pad4TenThousand();
      assert p[|p| - 4..] == "0000";
    } else {
      Pad4IsFour(serial);
    }
    assert Print(g, serial) == Prefix(g) + p;
    assert LastFour(Prefix(g) + p) == p[|p| - 4..];
  }

  // ---------- the pattern of an asset number ----------

  predicate IsOffice(s: string) {
    2 <= |s| <= 4 && forall i :: 0 <= i < |s| ==> 'A' <= s[i] <= 'Z' || IsDigit(s[i])
  }

  predicate IsCategory(s: string) {
    (|s| == 2 && s[0] == '0' && '1' <= s[1] <= '9') || s == "290"
  }

  predicate DigitsOfLength(s: string, n: nat) {
    |s| == n && AllDigits(s)
  }

  function Dash(a: string, b: string): string {
    a + "-" + b
  }

  function Dashed(a: string, b: string, c: string, d: string, e: string): string {
    Dash(Dash(Dash(Dash(a, b), c), d), e)
  }

  predicate PartsMatch(a: string, b: string, c: string, d: string, e: string) {
    IsOffice(a) && DigitsOfLength(b, 4) && IsCategory(c) && DigitsOfLength(d, 3) && DigitsOfLength(e, 4)
  }

  // The language of assetNoRegex, piece by piece.
  ghost predicate AssetNoMatches(s: string) {
    exists a, b, c, d, e :: s == Dashed(a, b, c, d, e) && PartsMatch(a, b, c, d, e)
  }

  // Deciding the language: cut at every hyphen.
  predicate AcceptsAssetNo(s: string) {
    var parts := Split(s, '-');
    |parts| == 5 && PartsMatch(parts[0], parts[1], parts[2], parts[3], parts[4])
  }

  lemma PartsHaveNoDash(a: string, b: string, c: string, d: string, e: string)
    requires PartsMatch(a, b, c, d, e)
    ensures '-' !in a && '-' !in b && '-' !in c && '-' !in d && '-' !in e
  {
  }

  lemma DashAssociates(a: string, b: string, c: string)
    ensures Dash(Dash(a, b), c) == Dash(a, Dash(b, c))
  {
  }

  lemma DashedFromRight(a: string, b: string, c: string, d: string, e: string)
    ensures Dashed(a, b, c, d, e) == Dash(a, Dash(b, Dash(c, Dash(d, e))))
  {
    hide Dash;
    DashAssociates(Dash(Dash(a, b), c), d, e);
    DashAssociates(Dash(a, b), c, Dash(d, e));
    DashAssociates(a, b, Dash(c, Dash(d, e)));
  }

  lemma SplitDash(a: string, b: string)
    requires '-' !in a
    ensures Split(Dash(a, b), '-') == [a] + Split(b, '-')
  {
    SplitCons(a, b, '-');
  }

  lemma SplitDashed(a: string, b: string, c: string, d: string, e: string)
    requires '-' !in a && '-' !in b && '-' !in c && '-' !in d && '-' !in e
    ensures Split(Dashed(a, b, c, d, e), '-') == [a, b, c, d, e]
  {
    hide Split, Dash, Dashed;
    DashedFromRight(a, b, c, d, e);
    SplitDash(d, e);
    SplitDash(c, Dash(d, e));
    SplitDash(b, Dash(c, Dash(d, e)));
    SplitDash(a, Dash(b, Dash(c, Dash(d, e))));
    assert Split(e, '-') == [e];
  }

  lemma JoinDash(first: string, rest: seq<string>)
    requires rest != []
    ensures Join([first] + rest, "-") == Dash(first, Join(rest, "-"))
  {
    assert ([first] + rest)[1..] == rest;
  }

  lemma JoinFive(a: string, b: string, c: string, d: string, e: string)
    ensures Join([a, b, c, d, e], "-") == Dashed(a, b, c, d, e)
  {
    JoinDash(d, [e]);
    JoinDash(c, [d, e]);
    JoinDash(b, [c, d, e]);
    JoinDash(a, [b, c, d, e]);
    DashedFromRight(a, b, c, d, e);
    assert Join([e], "-") == e;
    hide Join, Dash, Dashed;
    assert [a] + [b, c, d, e] == [a, b, c, d, e] && [b] + [c, d, e] == [b, c, d, e];
    assert [c] + [d, e] == [c, d, e] && [d] + [e] == [d, e];
  }

  lemma AcceptsIffMatches(s: string)
    ensures AcceptsAssetNo(s) <==> AssetNoMatches(s)
  {
    if AssetNoMatches(s) {
      var a, b, c, d, e :| s == Dashed(a, b, c, d, e) && PartsMatch(a, b, c, d, e);
      PartsHaveNoDash(a, b, c, d, e);
      SplitDashed(a, b, c, d, e);
    }
    var parts := Split(s, '-');
    if |parts| == 5 {
      JoinOfSplit(s, '-');
      JoinFive(parts[0], parts[1], parts[2], parts[3], parts[4]);
      assert parts == [parts[0], parts[1], parts[2], parts[3], parts[4]];
      assert AcceptsAssetNo(s) ==> s == Dashed(parts[0], parts[1], parts[2], parts[3], parts[4]);
    }
  }

  // ---------- which printed numbers match ----------

  lemma {:induction false} SplitCounts(a: string, b: string, sep: char)
    ensures |Split(a + [sep] + b, sep)| == |Split(a, sep)| + |Split(b, sep)|
    decreases |a|
  {
    var s := a + [sep] + b;
    if a == "" {
      assert s[1..] == b;
    } else {
      assert s[1..] == a[1..] + [sep] + b && s[0] == a[0];
      SplitCounts(a[1..], b, sep);
    }
  }

  lemma DashedCounts(a: string, b: string, c: string, d: string, e: string)
    requires |Split(Dashed(a, b, c, d, e), '-')| == 5
    ensures '-' !in a && '-' !in b && '-' !in c && '-' !in d && '-' !in e
  {
    SplitCounts(a, b, '-');
    SplitCounts(a + "-" + b, c, '-');
    SplitCounts(a + "-" + b + "-" + c, d, '-');
    SplitCounts(a + "-" + b + "-" + c + "-" + d, e, '-');
  }

  lemma DecimalLong(n: nat)
    requires 10000 <= n
    ensures 5 <= |Decimal(n)|
  {
    DecimalSteps(n);
    DecimalSteps(n / 10);
    DecimalSteps(n / 100);
    DecimalSteps(n / 1000);
    assert n / 10 / 10 == n / 100 && n / 100 / 10 == n / 1000;
  }

  // A printed number has four digits exactly from 0 to 9999.
  lemma FourDigitsIff(n: int)
    ensures DigitsOfLength(Pad4(n), 4) <==> 0 <= n <= 9999
    ensures 0 <= n ==> '-' !in Pad4(n)
  {
    if n < 0 {
      assert Pad4(n)[0] == '-';
    } else if n <= 9999 {
      Pad4IsFour(n);
    } else {
      DecimalLong(n);
      PadSteps(Decimal(n));
    }
  }

  predicate WellFormed(g: Group) {
    IsOffice(g.office) && 0 <= g.year <= 9999 && IsCategory(g.categoryNo) && DigitsOfLength(g.typeNumber, 3)
  }

  /** GetAsset accepts a printed number if and only if the office, year, category and type have the
      documented form and the serial is at most 9999. Ingest checks the category alone, so it also
      hands out numbers that GetAsset then refuses. */
  lemma PrintMatchesIff(g: Group, serial: int)
    ensures AssetNoMatches(Print(g, serial)) <==> WellFormed(g) && 0 <= serial <= 9999
  {
    var s := Print(g, serial);
    AcceptsIffMatches(s);
    FourDigitsIff(g.year);
    FourDigitsIff(serial);
    assert s == Dashed(g.office, Pad4(g.year), g.categoryNo, g.typeNumber, Pad4(serial));
    hide Pad4, Split, Dashed;
    if |Split(s, '-')| == 5 {
      DashedCounts(g.office, Pad4(g.year), g.categoryNo, g.typeNumber, Pad4(serial));
      SplitDashed(g.office, Pad4(g.year), g.categoryNo, g.typeNumber, Pad4(serial));
    }
    if WellFormed(g) && 0 <= serial <= 9999 {
      PartsHaveNoDash(g.office, Pad4(g.year), g.categoryNo, g.typeNumber, Pad4(serial));
      SplitDashed(g.office, Pad4(g.year), g.categoryNo, g.typeNumber, Pad4(serial));
    }
  }

  lemma PrintIsDashed(g: Group, serial: int)
    ensures Print(g, serial) == Dashed(g.office, Pad4(g.year), g.categoryNo, g.typeNumber, Pad4(serial))
  {
    hide Pad4;
  }

  // Cutting a well-formed number at the hyphens recovers what it was printed from.
  lemma PrintReadsBack(g: Group, serial: int)
    requires WellFormed(g) && 0 <= serial <= 9999
    ensures var parts := Split(Print(g, serial), '-');
      |parts| == 5 && parts[0] == g.office && Atoi(parts[1]) == Some(g.year) && parts[2] == g.categoryNo &&
      parts[3] == g.typeNumber && Atoi(parts[4]) == Some(serial)
  {
    hide Pad4, Split, Dashed, Atoi, Four, IsOffice, IsCategory, DigitsOfLength, Print;
    FourDigitsIff(g.year);
    FourDigitsIff(serial);
    Pad4IsFour(g.year);
    Pad4IsFour(serial);
    AtoiFour(g.year);
    AtoiFour(serial);
    PrintIsDashed(g, serial);
    PartsHaveNoDash(g.office, Pad4(g.year), g.categoryNo, g.typeNumber, Pad4(serial));
    SplitDashed(g.office, Pad4(g.year), g.categoryNo, g.typeNumber, Pad4(serial));
  }

  // So no two of them print alike.
  lemma WellFormedInjective(g: Group, m: int, h: Group, n: int)
    requires WellFormed(g) && WellFormed(h) && 0 <= m <= 9999 && 0 <= n <= 9999 && Print(g, m) == Print(h, n)
    ensures g == h && m == n
  {
    PrintReadsBack(g, m);
    PrintReadsBack(h, n);
  }
}
