/** The string operations of the Go standard library that the rest of the model uses,
    on strings whose letters and white space are ASCII. */
module Text {

  datatype Option<+T> = None | Some(value: T)

  datatype Result<+T> = Ok(value: T) | Err(message: string)

  predicate IsSpace(c: char) {
    c == ' ' || c == '\t' || c == '\n' || c == '\r' || c == '\U{000B}' || c == '\U{000C}'
  }

  predicate AllSpace(s: string) {
    forall i :: 0 <= i < |s| ==> IsSpace(s[i])
  }

  predicate IsDigit(c: char) {
    '0' <= c <= '9'
  }

  // The white space of ASCII is the blank and the five controls from the tabulator on.
  lemma SpaceIff(c: char)
    ensures IsSpace(c) <==> c as int == 32 || 9 <= c as int <= 13
  {
  }

  // ---------- strings.TrimSpace ----------

  function TrimLeft(s: string): (r: string)
    ensures |r| <= |s|
    ensures r == "" || !IsSpace(r[0])
  {
    if s != "" && IsSpace(s[0]) then TrimLeft(s[1..]) else s
  }

  function TrimRight(s: string): (r: string)
    ensures |r| <= |s|
    ensures r == "" || (!IsSpace(r[|r| - 1]) && r[0] == s[0])
  {
    if s != "" && IsSpace(s[|s| - 1]) then TrimRight(s[..|s| - 1]) else s
  }

  predicate Trimmed(s: string) {
    s == "" || (!IsSpace(s[0]) && !IsSpace(s[|s| - 1]))
  }

  function TrimSpace(s: string): (r: string)
    ensures Trimmed(r) && |r| <= |s|
    ensures Trimmed(s) ==> r == s
  {
    TrimRight(TrimLeft(s))
  }

  lemma {:induction false} TrimLeftParts(s: string) returns (a: string)
    ensures AllSpace(a) && s == a + TrimLeft(s)
    decreases |s|
  {
    if s != "" && IsSpace(s[0]) {
      var tail := s[1..];
      var rest := TrimLeftParts(tail);
      a := [s[0]] + rest;
      assert TrimLeft(s) == TrimLeft(tail);
      hide TrimLeft;
      assert s == [s[0]] + tail;
      assert [s[0]] + (rest + TrimLeft(tail)) == a + TrimLeft(tail);
    } else {
      a := "";
    }
  }

  lemma {:induction false} TrimRightParts(s: string) returns (b: string)
    ensures AllSpace(b) && s == TrimRight(s) + b
    decreases |s|
  {
    if s != "" && IsSpace(s[|s| - 1]) {
      var init, last := s[..|s| - 1], [s[|s| - 1]];
      var rest := TrimRightParts(init);
      b := rest + last;
      assert s == init + last;
      assert (TrimRight(init) + rest) + last == TrimRight(init) + b;
    } else {
      b := "";
    }
  }

  // What TrimSpace takes away on either side.
  lemma TrimParts(s: string) returns (a: string, b: string)
    ensures AllSpace(a) && AllSpace(b) && s == a + TrimSpace(s) + b
  {
    a := TrimLeftParts(s);
    b := TrimRightParts(TrimLeft(s));
    var m := TrimSpace(s);
    assert a + (m + b) == a + m + b;
  }

  lemma BlankIffAllSpace(s: string)
    ensures TrimSpace(s) == "" <==> AllSpace(s)
  {
    var a, b := TrimParts(s);
    if TrimSpace(s) != "" {
      assert s[|a|] == TrimSpace(s)[0] && s[|a|] in s;
    }
  }

  // Surrounding white space is all that TrimSpace takes away.
  lemma TrimPadded(a: string, m: string, b: string)
    requires AllSpace(a) && AllSpace(b) && Trimmed(m) && m != ""
    ensures TrimSpace(a + m + b) == m
  {
    var rest := m + b;
    assert a + m + b == a + rest;
    TrimLeftPadded(a, rest);
    TrimRightPadded(m, b);
  }

  lemma {:induction false} TrimLeftPadded(a: string, rest: string)
    requires AllSpace(a) && rest != "" && !IsSpace(rest[0])
    ensures TrimLeft(a + rest) == rest
    decreases |a|
  {
    if a == "" {
      assert a + rest == rest;
    } else {
      assert (a + rest)[1..] == a[1..] + rest;
      TrimLeftPadded(a[1..], rest);
    }
  }

  lemma {:induction false} TrimRightPadded(m: string, b: string)
    requires AllSpace(b) && m != "" && !IsSpace(m[|m| - 1])
    ensures TrimRight(m + b) == m
    decreases |b|
  {
    if b == "" {
      assert m + b == m;
    } else {
      assert (m + b)[..|m + b| - 1] == m + b[..|b| - 1];
      TrimRightPadded(m, b[..|b| - 1]);
    }
  }

  // ---------- strings.ToLower, strings.ToUpper ----------

  function LowerChar(c: char): char {
    if 'A' <= c <= 'Z' then (c as int + 32) as char else c
  }

  function UpperChar(c: char): char {
    if 'a' <= c <= 'z' then (c as int - 32) as char else c
  }

  function ToLower(s: string): (r: string)
    ensures |r| == |s|
    ensures forall i :: 0 <= i < |s| ==> r[i] == LowerChar(s[i])
  {
    seq(|s|, i requires 0 <= i < |s| => LowerChar(s[i]))
  }

  function ToUpper(s: string): (r: string)
    ensures |r| == |s|
    ensures forall i :: 0 <= i < |s| ==> r[i] == UpperChar(s[i])
  {
    seq(|s|, i requires 0 <= i < |s| => UpperChar(s[i]))
  }

  // Each letter has one counterpart in the other case, 32 code points away; nothing else has any.
  lemma CaseIff(c: char, d: char)
    ensures LowerChar(c) == d && c != d <==> UpperChar(d) == c && c != d
    ensures LowerChar(c) != c <==> 65 <= c as int < 91
    ensures LowerChar(c) != c ==> LowerChar(c) as int - c as int == 32
  {
  }

  lemma CaseKeepsSpace(c: char)
    ensures IsSpace(LowerChar(c)) == IsSpace(c) == IsSpace(UpperChar(c))
  {
  }

  lemma CaseIdempotent(s: string)
    ensures ToLower(ToLower(s)) == ToLower(s)
    ensures ToUpper(ToUpper(s)) == ToUpper(s)
    ensures Trimmed(s) ==> Trimmed(ToLower(s)) && Trimmed(ToUpper(s))
  {
    assert forall i :: 0 <= i < |s| ==> ToLower(ToLower(s))[i] == ToLower(s)[i];
    assert forall i :: 0 <= i < |s| ==> ToUpper(ToUpper(s))[i] == ToUpper(s)[i];
    if s != "" {
      CaseKeepsSpace(s[0]);
      CaseKeepsSpace(s[|s| - 1]);
    }
  }

  // ---------- strings.Fields, strings.Join, strings.Split, strings.ReplaceAll ----------

  predicate NoSpace(s: string) {
    forall i :: 0 <= i < |s| ==> !IsSpace(s[i])
  }

  // Length of the run of non-space characters at the front of s.
  function WordLength(s: string): (n: nat)
    ensures n <= |s| && NoSpace(s[..n])
    ensures n == |s| || IsSpace(s[n])
  {
    if s == "" || IsSpace(s[0]) then 0 else 1 + WordLength(s[1..])
  }

  predicate IsWord(w: string) {
    w != "" && NoSpace(w)
  }

  function Fields(s: string): (words: seq<string>)
    ensures Words(words)
    decreases |s|
  {
    var t := TrimLeft(s);
    if t == "" then []
    else
      var n := WordLength(t);
      [t[..n]] + Fields(t[n..])
  }

  predicate Words(words: seq<string>) {
    forall i :: 0 <= i < |words| ==> IsWord(words[i])
  }

  function Join(parts: seq<string>, sep: string): string {
    if parts == [] then ""
    else if |parts| == 1 then parts[0]
    else parts[0] + sep + Join(parts[1..], sep)
  }

  lemma {:induction false} WordLengthAppend(w: string, rest: string)
    requires NoSpace(w) && (rest == "" || IsSpace(rest[0]))
    ensures WordLength(w + rest) == |w|
    decreases |w|
  {
    if w == "" {
      assert w + rest == rest;
    } else {
      assert (w + rest)[1..] == w[1..] + rest;
      WordLengthAppend(w[1..], rest);
    }
  }

  // A word at the front of a string, up to a space or the end, is its first field.
  lemma FieldsCons(w: string, rest: string)
    requires IsWord(w) && (rest == "" || IsSpace(rest[0]))
    ensures Fields(w + rest) == [w] + Fields(rest)
  {
    var s := w + rest;
    assert !IsSpace(s[0]);
    assert TrimLeft(s) == s;
    WordLengthAppend(w, rest);
    assert s[..|w|] == w && s[|w|..] == rest;
  }

  lemma FieldsSkip(s: string)
    ensures Fields(" " + s) == Fields(s)
  {
    assert (" " + s)[1..] == s;
    assert TrimLeft(" " + s) == TrimLeft(s);
  }

  lemma FieldsOfTwo(w: string, rest: string)
    requires IsWord(w) && rest != "" && Trimmed(rest)
    ensures Fields(w + " " + rest) == [w] + Fields(rest)
    ensures Trimmed(w + " " + rest)
  {
    var s := w + " " + rest;
    assert s[0] == w[0] && s[|s| - 1] == rest[|rest| - 1];
    var tail := " " + rest;
    assert s == w + tail;
    assert Fields(s) == [w] + Fields(tail) by { FieldsCons(w, tail); }
    assert Fields(tail) == Fields(rest) by { FieldsSkip(rest); }
  }

  // Words joined by single spaces are read back by Fields.
  lemma {:induction false} FieldsOfJoin(words: seq<string>)
    requires Words(words)
    ensures Fields(Join(words, " ")) == words
    ensures Trimmed(Join(words, " "))
    ensures Join(words, " ") == "" <==> words == []
    decreases |words|
  {
    if words == [] {
    } else if |words| == 1 {
      var w := words[0];
      assert w + "" == w;
      FieldsCons(w, "");
    } else {
      FieldsOfJoin(words[1..]);
      FieldsOfTwo(words[0], Join(words[1..], " "));
    }
  }

  // A string that its words, joined by single spaces, rebuild.
  predicate SingleSpaced(s: string) {
    Join(Fields(s), " ") == s
  }

  lemma {:induction false} JoinAppend(a: seq<string>, b: seq<string>, sep: string)
    requires a != [] && b != []
    ensures Join(a + b, sep) == Join(a, sep) + sep + Join(b, sep)
    decreases |a|
  {
    if |a| == 1 {
      assert (a + b)[1..] == b;
    } else {
      JoinAppend(a[1..], b, sep);
      assert (a + b)[1..] == a[1..] + b;
      Reassociate(a[0] + sep, Join(a[1..], sep), sep, Join(b, sep));
    }
  }

  lemma Reassociate(a: string, b: string, c: string, d: string)
    ensures a + (b + c + d) == a + b + c + d
  {
  }

  function Split(s: string, sep: char): (parts: seq<string>)
    ensures parts != []
    ensures forall i :: 0 <= i < |parts| ==> sep !in parts[i]
    ensures |parts| == 1 <==> sep !in s
    ensures |parts| == 1 ==> parts[0] == s
  {
    if s == "" then [""]
    else
      var rest := Split(s[1..], sep);
      if s[0] == sep then [""] + rest else [[s[0]] + rest[0]] + rest[1..]
  }

  lemma {:induction false} SplitCons(a: string, rest: string, sep: char)
    requires sep !in a
    ensures Split(a + [sep] + rest, sep) == [a] + Split(rest, sep)
    decreases |a|
  {
    var s := a + [sep] + rest;
    if a == "" {
      assert s[1..] == rest;
    } else {
      var tail := a[1..] + [sep] + rest;
      assert s[1..] == tail && s[0] == a[0];
      SplitCons(a[1..], rest, sep);
      assert Split(tail, sep)[1..] == Split(rest, sep);
      assert a == [a[0]] + a[1..];
    }
  }

  lemma JoinGlue(c: char, first: string, rest: seq<string>, sep: string)
    ensures Join([[c] + first] + rest, sep) == [c] + Join([first] + rest, sep)
  {
    var a, b := [[c] + first] + rest, [first] + rest;
    assert a[1..] == rest && b[1..] == rest;
    if rest != [] {
      assert [c] + first + sep + Join(rest, sep) == [c] + (first + sep + Join(rest, sep));
    }
  }

  // Joining undoes splitting.
  lemma {:induction false} JoinOfSplit(s: string, sep: char)
    ensures Join(Split(s, sep), [sep]) == s
    decreases |s|
  {
    if s != "" {
      var rest := Split(s[1..], sep);
      JoinOfSplit(s[1..], sep);
      assert s == [s[0]] + s[1..];
      if s[0] == sep {
        var parts := [""] + rest;
        assert parts[1..] == rest;
        assert "" + [sep] == [sep];
      } else {
        assert rest == [rest[0]] + rest[1..];
        JoinGlue(s[0], rest[0], rest[1..], [sep]);
      }
    }
  }

  function ReplaceAll(s: string, from: char, to: char): (r: string)
    ensures |r| == |s|
    ensures forall i :: 0 <= i < |s| ==> r[i] == if s[i] == from then to else s[i]
  {
    seq(|s|, i requires 0 <= i < |s| => if s[i] == from then to else s[i])
  }

  predicate HasPrefix(s: string, prefix: string) {
    |prefix| <= |s| && s[..|prefix|] == prefix
  }

  // ---------- ObjectID.Hex ----------

  function HexDigit(d: nat): (c: char)
    requires d < 16
  {
    "0123456789abcdef"[d]
  }

  predicate IsHexDigit(c: char) {
    '0' <= c <= '9' || 'a' <= c <= 'f'
  }

  function HexValue(c: char): nat {
    if '0' <= c <= '9' then c as nat - '0' as nat
    else if 'a' <= c <= 'f' then c as nat - 'a' as nat + 10
    else 0
  }

  /** An ObjectID is modelled by the number of ObjectIDs generated before it; its text is that
      number in lower-case hexadecimal. */
  function Hex(n: nat): (s: string)
    ensures s != "" && forall i :: 0 <= i < |s| ==> IsHexDigit(s[i])
  {
    if n < 16 then [HexDigit(n)] else Hex(n / 16) + [HexDigit(n % 16)]
  }

  function FromHex(s: string): nat {
    if s == "" then 0 else 16 * FromHex(s[..|s| - 1]) + HexValue(s[|s| - 1])
  }

  lemma HexDigitValue(d: nat)
    requires d < 16
    ensures HexValue(HexDigit(d)) == d && IsHexDigit(HexDigit(d))
  {
  }

  lemma FromHexSnoc(s: string, c: char)
    ensures FromHex(s + [c]) == 16 * FromHex(s) + HexValue(c)
  {
    assert (s + [c])[..|s|] == s;
  }

  // The text of an ObjectID determines it.
  lemma {:induction false} HexRoundTrip(n: nat)
    ensures FromHex(Hex(n)) == n
  {
    if n < 16 {
      assert [HexDigit(n)] == "" + [HexDigit(n)];
      HexDigitValue(n);
      FromHexSnoc("", HexDigit(n));
    } else {
      HexRoundTrip(n / 16);
      HexDigitValue(n % 16);
      FromHexSnoc(Hex(n / 16), HexDigit(n % 16));
    }
  }

  lemma HexTrimmed(n: nat)
    ensures Trimmed(Hex(n)) && '.' !in Hex(n)
  {
    var s := Hex(n);
    assert IsHexDigit(s[0]) && IsHexDigit(s[|s| - 1]);
  }
}
