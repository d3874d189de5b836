/** Set properties as text: printing a set by its keywords and reading it back. */
module SetText {
  import opened Bits

  /** A keyword; its value and the property's are unsigned words. */
  datatype Keyword = Keyword(name: string, value: nat)

  const WORD: nat := 0x1_0000_0000

  // ---------------------------------------------------------------------------
  // Printing
  // ---------------------------------------------------------------------------

  /** Whether a keyword is printed when v is what is left of the value; a value that was zero to
      begin with is printed by the keywords for zero. */
  predicate Chosen(key: Keyword, v: nat, zero: bool)
  {
    if zero then key.value == 0 else key.value != 0 && And(key.value, v) == key.value
  }

  /** The keywords printed, and what of the value none of them names. */
  function Printed(keys: seq<Keyword>, v: nat, zero: bool): (r: seq<Keyword>)
    ensures |r| <= |keys|
  {
    if keys == [] then []
    else if Chosen(keys[0], v, zero) then [keys[0]] + Printed(keys[1..], v - keys[0].value, zero)
    else Printed(keys[1..], v, zero)
  }

  function Residue(keys: seq<Keyword>, v: nat, zero: bool): (r: nat)
    ensures r <= v
  {
    if keys == [] then v
    else Residue(keys[1..], if Chosen(keys[0], v, zero) then v - keys[0].value else v, zero)
  }

  function Append(buffer: string, name: string, charset: bool): string
  {
    if buffer != "" && !charset then buffer + "|" + name else buffer + name
  }

  function Join(keys: seq<Keyword>, charset: bool): string
  {
    if keys == [] then "" else Append(Join(keys[..|keys| - 1], charset), keys[|keys| - 1].name, charset)
  }

  /** The room asked for before each keyword. */
  ghost predicate Room(keys: seq<Keyword>, charset: bool, size: int)
  {
    forall k :: 0 <= k < |keys| ==> RoomFor(keys, k, charset, size)
  }

  ghost predicate RoomFor(keys: seq<Keyword>, k: nat, charset: bool, size: int)
    requires k < |keys|
  {
    |Join(keys[..k], charset)| + |keys[k].name| + 1 < size
  }

  lemma NextPrinted(p: seq<Keyword>, n: nat, key: Keyword, more: seq<Keyword>, charset: bool)
    requires n <= |p| && p[n..] == [key] + more
    ensures n < |p| && p[n] == key && p[n + 1..] == more
    ensures Join(p[..n + 1], charset) == Append(Join(p[..n], charset), key.name, charset)
  {
    assert p[n..][0] == p[n] && p[n..][1..] == p[n + 1..];
    assert p[..n + 1][..n] == p[..n];
  }

  /** Writes a keyword behind a separator, if one is needed. */
  method AddName(count0: int, buffer0: string, name: string, charset: bool) returns (count: int, buffer: string)
    requires count0 == |buffer0|
    ensures buffer == Append(buffer0, name, charset) && count == |buffer| <= |buffer0| + |name| + 1
  {
    count, buffer := count0, buffer0;
    if buffer != "" && !charset {
      count := count + 1;
      buffer := buffer + "|";
    }
    count := count + |name|;
    buffer := buffer + name;
  }

  /** The text of a set, if there is room for it; 0 says that there is none. What is in the buffer
      always leaves room for the terminator. */
  method ConvertFromSet(size: int, data: nat, keys: seq<Keyword>, charset: bool) returns (count: int, buffer: string)
    requires 0 < size
    ensures |buffer| < size
    ensures var p := Printed(keys, data, data == 0);
            && (Room(p, charset, size) ==> buffer == Join(p, charset) && count == |buffer|)
            && (!Room(p, charset, size) ==> count == 0)
  {
    var value: nat, zero, rest := data, data == 0, keys;
    buffer, count := "", 0;
    ghost var p := Printed(keys, data, zero);
    ghost var n := 0;
    assert p[0..] == p && p[..0] == [];
    while rest != []
      invariant n <= |p| && p[n..] == Printed(rest, value, zero)
      invariant buffer == Join(p[..n], charset) && count == |buffer| < size
      invariant forall j :: 0 <= j < n ==> RoomFor(p, j, charset, size)
      decreases |rest|
    {
      var key := rest[0];
      rest := rest[1..];
      if (!zero && key.value != 0 && And(key.value, value) == key.value) || (key.value == 0 && zero) {
        value := value - key.value;
        NextPrinted(p, n, key, Printed(rest, value, zero), charset);
        if size <= count + |key.name| + 1 {
          assert !RoomFor(p, n, charset, size);
          return 0, buffer;
        }
        count, buffer := AddName(count, buffer, key.name, charset);
        assert RoomFor(p, n, charset, size);
        n := n + 1;
      }
    }
    assert p[..n] == p;
  }

  // ---------------------------------------------------------------------------
  // Reading
  // ---------------------------------------------------------------------------

  datatype Parsed = Number | Rejected | Members(value: nat, count: nat)

  predicate Digit(c: char) { '0' <= c <= '9' }

  predicate Numeric(text: string)
  {
    text != "" && Digit(text[0])
  }

  function Find(keys: seq<Keyword>, name: string): (k: nat)
    ensures k <= |keys|
    ensures k < |keys| ==> keys[k].name == name
    ensures forall j :: 0 <= j < k ==> keys[j].name != name
  {
    if keys == [] then 0 else if keys[0].name == name then 0 else
      var r := Find(keys[1..], name);
      assert forall j :: 1 <= j < r + 1 ==> keys[j] == keys[1..][j - 1];
      1 + r
  }

  /** Keywords are compared by their first character only; an empty name has the terminator there. */
  function FindChar(keys: seq<Keyword>, c: char): (k: nat)
    ensures k <= |keys|
    ensures k < |keys| ==> keys[k].name != "" && keys[k].name[0] == c
    ensures forall j :: 0 <= j < k ==> keys[j].name == "" || keys[j].name[0] != c
  {
    if keys == [] then 0 else if keys[0].name != "" && keys[0].name[0] == c then 0 else
      var r := FindChar(keys[1..], c);
      assert forall j :: 1 <= j < r + 1 ==> keys[j] == keys[1..][j - 1];
      1 + r
  }

  /** Setting bits in a 32-bit number. */
  function Or32(a: nat, b: nat): nat { Or(a, b) % WORD }

  function ParseWords(keys: seq<Keyword>, words: seq<string>): Parsed
  {
    if words == [] then Members(0, 0)
    else
      var before := ParseWords(keys, words[..|words| - 1]);
      var k := Find(keys, words[|words| - 1]);
      if before.Members? && k < |keys| then Members(Or32(before.value, keys[k].value), before.count + 1)
      else Rejected
  }

  function ParseChars(keys: seq<Keyword>, text: string): Parsed
  {
    if text == "" then Members(0, 0)
    else
      var before := ParseChars(keys, text[..|text| - 1]);
      var k := FindChar(keys, text[|text| - 1]);
      if before.Members? && k < |keys| then Members(Or32(before.value, keys[k].value), before.count + 1)
      else Rejected
  }

  function WordLength(s: string): (n: nat)
    ensures n <= |s| && '|' !in s[..n]
    ensures n < |s| ==> s[n] == '|'
  {
    if s == "" || s[0] == '|' then 0 else
      var n := 1 + WordLength(s[1..]);
      assert s[..n] == [s[0]] + s[1..][..n - 1];
      n
  }

  /** The words of a text, as strtok finds them: empty ones do not count. */
  function Words(s: string): seq<string>
    decreases |s|
  {
    if s == "" then []
    else if s[0] == '|' then Words(s[1..])
    else [s[..WordLength(s)]] + Words(s[WordLength(s)..])
  }

  function Parse(keys: seq<Keyword>, text: string, charset: bool): Parsed
  {
    if Numeric(text) then Number
    else if |text| > 4095 then Rejected
    else if charset && '|' !in text then ParseChars(keys, text)
    else ParseWords(keys, Words(text))
  }

  /** Once a word is unknown, so is every longer list. */
  lemma {:induction false} RejectedStays(keys: seq<Keyword>, words: seq<string>, k: nat)
    requires k <= |words| && ParseWords(keys, words[..k]).Rejected?
    ensures ParseWords(keys, words).Rejected?
    decreases |words|
  {
    if k < |words| {
      assert words[..|words| - 1][..k] == words[..k];
      RejectedStays(keys, words[..|words| - 1], k);
    } else {
      assert words[..k] == words;
    }
  }

  lemma {:induction false} RejectedStaysChars(keys: seq<Keyword>, text: string, k: nat)
    requires k <= |text| && ParseChars(keys, text[..k]).Rejected?
    ensures ParseChars(keys, text).Rejected?
    decreases |text|
  {
    if k < |text| {
      assert text[..|text| - 1][..k] == text[..k];
      RejectedStaysChars(keys, text[..|text| - 1], k);
    } else {
      assert text[..k] == text;
    }
  }

  /** Text is scanned as a number exactly if it starts with a digit, whatever the table. */
  lemma ScannedIff(keys: seq<Keyword>, text: string, charset: bool)
    ensures Parse(keys, text, charset) == Number <==> text != "" && '0' <= text[0] <= '9'
  {
  }

  ghost predicate Named(keys: seq<Keyword>, w: string)
  {
    exists k :: 0 <= k < |keys| && keys[k].name == w
  }

  ghost predicate Lettered(keys: seq<Keyword>, c: char)
  {
    exists k :: 0 <= k < |keys| && keys[k].name != "" && keys[k].name[0] == c
  }

  /** The first keyword of a name has bit i. */
  ghost predicate NameHasBit(keys: seq<Keyword>, w: string, i: nat)
  {
    exists k :: 0 <= k < |keys| && keys[k].name == w && Bit(keys[k].value, i)
                && forall j :: 0 <= j < k ==> keys[j].name != w
  }

  ghost predicate LetterHasBit(keys: seq<Keyword>, c: char, i: nat)
  {
    exists k :: 0 <= k < |keys| && keys[k].name != "" && keys[k].name[0] == c && Bit(keys[k].value, i)
                && forall j :: 0 <= j < k ==> keys[j].name == "" || keys[j].name[0] != c
  }

  function Power(n: nat): (w: nat)
    ensures 0 < w
  {
    if n == 0 then 1 else 2 * Power(n - 1)
  }

  lemma {:induction false} LowerBits(x: nat, n: nat, i: nat)
    ensures Bit(x % Power(n), i) <==> i < n && Bit(x, i)
    decreases n
  {
    if n == 0 {
      assert x % 1 == 0;
      NoBits(i);
    } else {
      Halves(x, Power(n - 1));
      if i > 0 { LowerBits(x / 2, n - 1, i - 1); }
    }
  }

  lemma Halves(x: nat, h: nat)
    requires 0 < h
    ensures x % (2 * h) / 2 == x / 2 % h && x % (2 * h) % 2 == x % 2
  {
    var q, r := x / (2 * h), x % (2 * h);
    assert x == 2 * (h * q) + r;
    assert x / 2 == h * q + r / 2 && 0 <= r / 2 < h;
    Remainder(x / 2, h, q, r / 2);
  }

  lemma Remainder(x: nat, h: nat, q: nat, r: nat)
    requires x == h * q + r && r < h
    ensures x % h == r
  {
    var d := x / h - q;
    assert x == h * (q + d) + x % h;
    Distribute(h, q, d);
    Multiples(h, d);
  }

  lemma Distribute(h: int, q: int, d: int)
    ensures h * (q + d) == h * q + h * d
  {
  }

  lemma Multiples(h: int, d: int)
    requires 0 < h
    ensures d >= 1 ==> h * d >= h
    ensures d <= -1 ==> h * d <= -h
  {
  }

  lemma Or32Bit(a: nat, b: nat, i: nat)
    ensures Bit(Or32(a, b), i) <==> i < 32 && (Bit(a, i) || Bit(b, i))
  {
    assert Power(8) == 256 && Power(16) == 65536 && Power(24) == 0x100_0000 && Power(32) == WORD;
    LowerBits(Or(a, b), 32, i);
    OrBit(a, b, i);
  }

  /** Words are read if and only if each is the name of a keyword; bit i of what they give is set if and only if
      it is among the lower 32 and the keyword of one of them has it, however often and in whatever order. */
  lemma {:induction false} WordsReadIff(keys: seq<Keyword>, words: seq<string>)
    ensures var r := ParseWords(keys, words);
            && (r.Members? <==> forall w :: w in words ==> Named(keys, w))
            && (r.Members? ==> r.count == |words|)
            && (r.Members? ==> forall i: nat ::
                  Bit(r.value, i) <==> i < 32 && exists w :: w in words && NameHasBit(keys, w, i))
    decreases |words|
  {
    if words == [] {
      forall i: nat ensures !Bit(0, i) { NoBits(i); }
    } else {
      var n, r := |words| - 1, ParseWords(keys, words);
      var before, k := ParseWords(keys, words[..n]), Find(keys, words[n]);
      WordsReadIff(keys, words[..n]);
      assert words == words[..n] + [words[n]];
      assert Named(keys, words[n]) <==> k < |keys|;
      if r.Members? {
        forall i: nat
          ensures Bit(r.value, i) <==> i < 32 && exists w :: w in words && NameHasBit(keys, w, i)
        {
          Or32Bit(before.value, keys[k].value, i);
          assert NameHasBit(keys, words[n], i) <==> Bit(keys[k].value, i);
        }
      }
    }
  }

  /** The same of single characters. */
  lemma {:induction false} CharsReadIff(keys: seq<Keyword>, text: string)
    ensures var r := ParseChars(keys, text);
            && (r.Members? <==> forall c :: c in text ==> Lettered(keys, c))
            && (r.Members? ==> r.count == |text|)
            && (r.Members? ==> forall i: nat ::
                  Bit(r.value, i) <==> i < 32 && exists c :: c in text && LetterHasBit(keys, c, i))
    decreases |text|
  {
    if text == "" {
      forall i: nat ensures !Bit(0, i) { NoBits(i); }
    } else {
      var n, r := |text| - 1, ParseChars(keys, text);
      var before, k := ParseChars(keys, text[..n]), FindChar(keys, text[n]);
      CharsReadIff(keys, text[..n]);
      assert text == text[..n] + [text[n]];
      assert Lettered(keys, text[n]) <==> k < |keys|;
      if r.Members? {
        forall i: nat
          ensures Bit(r.value, i) <==> i < 32 && exists c :: c in text && LetterHasBit(keys, c, i)
        {
          Or32Bit(before.value, keys[k].value, i);
          assert LetterHasBit(keys, text[n], i) <==> Bit(keys[k].value, i);
        }
      }
    }
  }

  /** A text that is no number is read by characters only if its table is one of single characters and it has no
      separator; it is refused if and only if it is too long or has an unknown member. */
  lemma RefusedIff(keys: seq<Keyword>, text: string, charset: bool)
    requires text == "" || !('0' <= text[0] <= '9')
    ensures Parse(keys, text, charset) == Rejected <==>
            || |text| > 4095
            || (if charset && '|' !in text then exists c :: c in text && !Lettered(keys, c)
                else exists w :: w in Words(text) && !Named(keys, w))
    ensures |text| <= 4095 ==>
              Parse(keys, text, charset) ==
              if charset && '|' !in text then ParseChars(keys, text) else ParseWords(keys, Words(text))
  {
    WordsReadIff(keys, Words(text));
    CharsReadIff(keys, text);
  }

  /** Reading writes the lower word of a property and leaves the upper one. */
  function Store(data: nat, value: nat): nat { data - data % WORD + value % WORD }

  /** Reads a set. A number is scanned as one, `scan` giving what that yields; any other text leaves the
      property alone unless every member is known. */
  method ConvertToSet(text: string, data: nat, keys: seq<Keyword>, charset: bool, scan: string -> (int, nat))
    returns (count: int, after: nat)
    ensures match Parse(keys, text, charset)
            case Number => (count, after) == (scan(text).0, Store(data, scan(text).1))
            case Rejected => count == 0 && after == data
            case Members(value, n) => count == n && after == Store(data, value)
  {
    if Numeric(text) {
      var (n, number) := scan(text);
      return n, Store(data, number);
    }
    if |text| > 4095 { return 0, data; }
    if charset && '|' !in text {
      count, after := ReadChars(text, data, keys);
    } else {
      count, after := ReadWords(text, data, keys);
    }
  }

  method ReadChars(text: string, data: nat, keys: seq<Keyword>) returns (count: int, after: nat)
    ensures match ParseChars(keys, text)
            case Number => false
            case Rejected => count == 0 && after == data
            case Members(value, n) => count == n && after == Store(data, value)
  {
    var value: nat := 0;
    count, after := 0, data;
    for i := 0 to |text|
      invariant after == data && ParseChars(keys, text[..i]) == Members(value, count)
    {
      assert text[..i + 1][..i] == text[..i];
      var k := FindChar(keys, text[i]);
      if k == |keys| {
        RejectedStaysChars(keys, text, i + 1);
        return 0, data;
      }
      value := Or32(value, keys[k].value);
      count := count + 1;
    }
    assert text[..|text|] == text;
    after := Store(data, value);
  }

  method ReadWords(text: string, data: nat, keys: seq<Keyword>) returns (count: int, after: nat)
    ensures match ParseWords(keys, Words(text))
            case Number => false
            case Rejected => count == 0 && after == data
            case Members(value, n) => count == n && after == Store(data, value)
  {
    var value: nat := 0;
    count, after := 0, data;
    ghost var words := Words(text);
    var rest := text;
    ghost var done := 0;
    assert words[0..] == words && words[..0] == [];
    while rest != ""
      invariant done <= |words| && Words(rest) == words[done..]
      invariant ParseWords(keys, words[..done]) == Members(value, count)
      decreases |rest|
    {
      if rest[0] == '|' {
        rest := rest[1..];
      } else {
        var n := WordLength(rest);
        var k := Find(keys, rest[..n]);
        assert Words(rest)[0] == rest[..n] && words[done..][0] == words[done];
        assert words[done..][1..] == words[done + 1..];
        assert words[..done + 1][..done] == words[..done];
        if k == |keys| {
          RejectedStays(keys, words, done + 1);
          return 0, data;
        }
        value := Or32(value, keys[k].value);
        count := count + 1;
        rest := rest[n..];
        done := done + 1;
      }
    }
    assert words[..done] == words;
    after := Store(data, value);
  }

  // ---------------------------------------------------------------------------
  // The round trip
  // ---------------------------------------------------------------------------

  /** Keywords that text can tell apart from each other, from separators and from numbers. */
  ghost predicate Table(keys: seq<Keyword>, charset: bool)
  {
    && (forall j, k :: 0 <= j < k < |keys| ==> keys[j].name != keys[k].name)
    && (forall k :: 0 <= k < |keys| ==> Usable(keys[k], charset))
  }

  ghost predicate Usable(key: Keyword, charset: bool)
  {
    && key.name != "" && !Digit(key.name[0]) && '|' !in key.name && key.value < WORD
    && (charset ==> |key.name| == 1)
  }

  ghost predicate AllUsable(p: seq<Keyword>, charset: bool)
  {
    forall k :: 0 <= k < |p| ==> Usable(p[k], charset)
  }

  function Sum(keys: seq<Keyword>): nat
  {
    if keys == [] then 0 else Sum(keys[..|keys| - 1]) + keys[|keys| - 1].value
  }

  lemma {:induction false} SumCons(key: Keyword, keys: seq<Keyword>)
    ensures Sum([key] + keys) == key.value + Sum(keys)
    decreases |keys|
  {
    var n := |keys|;
    if n == 0 {
      assert [key] + keys == [key];
    } else {
      assert ([key] + keys)[..n] == [key] + keys[..n - 1];
      SumCons(key, keys[..n - 1]);
    }
  }

  lemma SumShift(key: Keyword, rest: seq<Keyword>, j: nat)
    requires 0 < j <= |rest|
    ensures Sum(([key] + rest)[..j]) == key.value + Sum(rest[..j - 1]) && ([key] + rest)[j] == rest[j - 1]
  {
    assert ([key] + rest)[..j] == [key] + rest[..j - 1];
    SumCons(key, rest[..j - 1]);
  }

  /** The values printed and the residue make up the value. */
  lemma {:induction false} PrintedSum(keys: seq<Keyword>, v: nat, zero: bool)
    ensures Sum(Printed(keys, v, zero)) + Residue(keys, v, zero) == v
  {
    if keys != [] {
      if Chosen(keys[0], v, zero) {
        PrintedSum(keys[1..], v - keys[0].value, zero);
        SumCons(keys[0], Printed(keys[1..], v - keys[0].value, zero));
      } else {
        PrintedSum(keys[1..], v, zero);
      }
    }
  }

  lemma TakesBits(a: nat, v: nat, key: Keyword, zero: bool)
    requires And(a, v) == 0 && Chosen(key, v, zero)
    ensures key.value <= v && And(a, key.value) == 0 && And(a + key.value, v - key.value) == 0
  {
    if key.value == 0 { AndZero(a); } else { MoveBits(a, v, key.value); }
  }

  /** The j-th keyword has no bit of a or of the keywords before it. */
  ghost predicate ApartAt(p: seq<Keyword>, a: nat, j: nat)
    requires j < |p|
  {
    And(a + Sum(p[..j]), p[j].value) == 0
  }

  ghost predicate AllApart(p: seq<Keyword>, a: nat)
  {
    forall j :: 0 <= j < |p| ==> ApartAt(p, a, j)
  }

  lemma ApartFirst(p: seq<Keyword>, a: nat)
    requires p != [] && And(a, p[0].value) == 0
    ensures ApartAt(p, a, 0)
  {
    assert p[..0] == [];
  }

  lemma ApartLater(key: Keyword, rest: seq<Keyword>, a: nat, j: nat)
    requires 0 < j <= |rest| && ApartAt(rest, a + key.value, j - 1)
    ensures ApartAt([key] + rest, a, j)
  {
    SumShift(key, rest, j);
    assert a + key.value + Sum(rest[..j - 1]) == a + Sum(([key] + rest)[..j]);
  }

  /** No bit is named twice. */
  lemma {:induction false} PrintedDisjoint(keys: seq<Keyword>, v: nat, zero: bool, a: nat)
    requires And(a, v) == 0
    ensures AllApart(Printed(keys, v, zero), a)
  {
    if keys == [] {
    } else if Chosen(keys[0], v, zero) {
      TakesBits(a, v, keys[0], zero);
      var rest := Printed(keys[1..], v - keys[0].value, zero);
      PrintedDisjoint(keys[1..], v - keys[0].value, zero, a + keys[0].value);
      ApartCons(keys[0], rest, a);
    } else {
      PrintedDisjoint(keys[1..], v, zero, a);
    }
  }

  lemma ApartCons(key: Keyword, rest: seq<Keyword>, a: nat)
    requires And(a, key.value) == 0 && AllApart(rest, a + key.value)
    ensures AllApart([key] + rest, a)
  {
    forall j | 0 <= j < |rest| + 1 ensures ApartAt([key] + rest, a, j) {
      if j == 0 { ApartFirst([key] + rest, a); } else { ApartLater(key, rest, a, j); }
    }
  }

  lemma {:induction false} PrintedFrom(keys: seq<Keyword>, v: nat, zero: bool, j: nat) returns (i: nat)
    requires j < |Printed(keys, v, zero)|
    ensures i < |keys| && keys[i] == Printed(keys, v, zero)[j]
  {
    if Chosen(keys[0], v, zero) {
      if j == 0 { return 0; }
      i := PrintedFrom(keys[1..], v - keys[0].value, zero, j - 1);
    } else {
      i := PrintedFrom(keys[1..], v, zero, j);
    }
    i := i + 1;
  }

  /** Of a value other than zero exactly those keywords are printed that have a bit and lie inside what is left when
      their turn comes: each lies inside the value, and none that still fits in the end was passed over. Zero is
      printed by all keywords for zero. */
  lemma {:induction false} PrintedMeans(keys: seq<Keyword>, v: nat, zero: bool)
    ensures zero ==> forall k :: k in Printed(keys, v, true) <==> k in keys && k.value == 0
    ensures !zero ==> forall k :: k in Printed(keys, v, false) ==> k.value != 0 && Inside(k.value, v)
    ensures !zero ==> forall k :: k in keys && k.value != 0 && Inside(k.value, Residue(keys, v, false)) ==>
                        k in Printed(keys, v, false)
    ensures Inside(Residue(keys, v, zero), v)
  {
    if keys == [] {
      InsideIfBits(v, v);
    } else {
      var key, rest := keys[0], if Chosen(keys[0], v, zero) then v - keys[0].value else v;
      PrintedMeans(keys[1..], rest, zero);
      assert keys == [key] + keys[1..];
      assert Inside(rest, v) by { LeftInside(key.value, v, rest, zero); }
      var p := Printed(keys[1..], rest, zero);
      forall k | k in p && Inside(k.value, rest) ensures Inside(k.value, v) { InsideTwice(k.value, rest, v); }
      InsideTwice(Residue(keys, v, zero), rest, v);
      if !zero && key.value != 0 && Inside(key.value, Residue(keys, v, false)) {
        InsideTwice(key.value, Residue(keys, v, false), v);
      }
    }
  }

  lemma LeftInside(k: nat, v: nat, rest: nat, zero: bool)
    requires rest == v || (k <= v && rest == v - k && (k == 0 || Inside(k, v)))
    ensures Inside(rest, v)
  {
    forall i: nat | Bit(rest, i) ensures Bit(v, i) {
      if rest != v { MinusBit(v, k, i); }
    }
    InsideIfBits(rest, v);
  }

  lemma InsideTwice(a: nat, b: nat, c: nat)
    requires Inside(a, b) && Inside(b, c)
    ensures Inside(a, c)
  {
    forall i: nat | Bit(a, i) ensures Bit(c, i) {
      InsideBit(a, b, i);
      InsideBit(b, c, i);
    }
    InsideIfBits(a, c);
  }

  lemma FindsItself(keys: seq<Keyword>, charset: bool, i: nat)
    requires Table(keys, charset) && i < |keys|
    ensures Find(keys, keys[i].name) == i
  {
    var r := Find(keys, keys[i].name);
    assert r <= i;
  }

  lemma FindsItsChar(keys: seq<Keyword>, i: nat)
    requires Table(keys, true) && i < |keys|
    ensures keys[i].name != "" && FindChar(keys, keys[i].name[0]) == i
  {
    assert Usable(keys[i], true);
    var r := FindChar(keys, keys[i].name[0]);
    assert r <= i;
    if r < i {
      assert Usable(keys[r], true) && keys[r].name != keys[i].name;
      SingleChars(keys[r].name, keys[i].name);
    }
  }

  lemma SingleChars(a: string, b: string)
    requires |a| == 1 && |b| == 1 && a[0] == b[0]
    ensures a == b
  {
  }

  ghost predicate PowerOfTwo(w: nat)
    requires w > 0
  {
    w == 1 || (w % 2 == 0 && PowerOfTwo(w / 2))
  }

  lemma {:induction false} OrBelow(a: nat, b: nat, w: nat)
    requires 0 < w && PowerOfTwo(w) && a < w && b < w
    ensures Or(a, b) < w
    decreases w
  {
    if w > 1 { OrBelow(a / 2, b / 2, w / 2); }
  }

  lemma {:induction false} PowersMultiply(a: nat, b: nat)
    requires 0 < a && 0 < b && PowerOfTwo(a) && PowerOfTwo(b)
    ensures 0 < a * b && PowerOfTwo(a * b)
    decreases a
  {
    if a > 1 {
      PowersMultiply(a / 2, b);
      DoubleProduct(a, a / 2, b);
      Doubled(a / 2 * b, a * b);
    } else {
      assert a * b == b;
    }
  }

  lemma DoubleProduct(a: nat, h: nat, b: nat)
    requires a == 2 * h
    ensures a * b == 2 * (h * b)
  {
  }

  lemma Doubled(h: nat, w: nat)
    requires 0 < h && PowerOfTwo(h) && w == 2 * h
    ensures PowerOfTwo(w)
  {
    assert w / 2 == h && w % 2 == 0;
  }

  lemma WordIsPower()
    ensures PowerOfTwo(WORD)
  {
    assert PowerOfTwo(2);
    PowersMultiply(2, 2);
    PowersMultiply(4, 4);
    PowersMultiply(16, 16);
    PowersMultiply(256, 256);
    PowersMultiply(65536, 65536);
  }

  lemma OrWord(a: nat, b: nat)
    requires a < WORD && b < WORD && And(a, b) == 0
    ensures Or32(a, b) == a + b < WORD
  {
    WordIsPower();
    OrBelow(a, b, WORD);
    OrDisjoint(a, b);
  }

  function Names(keys: seq<Keyword>): (r: seq<string>)
    ensures |r| == |keys|
  {
    seq(|keys|, k requires 0 <= k < |keys| => keys[k].name)
  }

  /** A keyword of a list that the table finds again, with no bit of the ones before it. */
  ghost predicate FoundAt(keys: seq<Keyword>, p: seq<Keyword>, j: nat, charset: bool)
    requires j < |p|
  {
    Usable(p[j], charset) && ApartAt(p, 0, j) && p[j] in keys
  }

  ghost predicate AllFound(keys: seq<Keyword>, p: seq<Keyword>, charset: bool)
  {
    forall j :: 0 <= j < |p| ==> FoundAt(keys, p, j, charset)
  }

  lemma PrintedFound(keys: seq<Keyword>, v: nat, charset: bool)
    requires Table(keys, charset)
    ensures AllFound(keys, Printed(keys, v, v == 0), charset)
  {
    var p := Printed(keys, v, v == 0);
    PrintedDisjoint(keys, v, v == 0, 0);
    forall j | 0 <= j < |p| ensures FoundAt(keys, p, j, charset) {
      var i := PrintedFrom(keys, v, v == 0, j);
      assert Usable(keys[i], charset);
    }
  }

  lemma FoundStep(keys: seq<Keyword>, p: seq<Keyword>, charset: bool, n: nat) returns (i: nat)
    requires Table(keys, charset) && AllFound(keys, p, charset) && n < |p| && Sum(p[..n]) < WORD
    ensures i < |keys| && keys[i] == p[n] && Find(keys, p[n].name) == i
    ensures charset ==> |p[n].name| == 1 && FindChar(keys, p[n].name[0]) == i
    ensures Or32(Sum(p[..n]), p[n].value) == Sum(p[..n + 1]) < WORD
  {
    assert FoundAt(keys, p, n, charset);
    i :| 0 <= i < |keys| && keys[i] == p[n];
    FindsItself(keys, charset, i);
    if charset { FindsItsChar(keys, i); }
    OrWord(Sum(p[..n]), p[n].value);
    assert p[..n + 1][..n] == p[..n];
  }

  /** Reading the names of the first j keywords gives the sum of their values. */
  lemma {:induction false} ReadsSum(keys: seq<Keyword>, p: seq<Keyword>, charset: bool, j: nat)
    requires Table(keys, charset) && AllFound(keys, p, charset) && j <= |p|
    ensures Sum(p[..j]) < WORD && ParseWords(keys, Names(p[..j])) == Members(Sum(p[..j]), j)
    decreases j
  {
    if j == 0 {
      assert Names(p[..0]) == [] && p[..0] == [];
    } else {
      var n := j - 1;
      ReadsSum(keys, p, charset, n);
      assert Names(p[..j])[..n] == Names(p[..n]);
      var i := FoundStep(keys, p, charset, n);
    }
  }

  /** Single characters put together can be taken apart again. */
  lemma {:induction false} CharsOfJoin(p: seq<Keyword>)
    requires AllUsable(p, true)
    ensures |Join(p, true)| == |p| && '|' !in Join(p, true)
    decreases |p|
  {
    if p != [] {
      CharsOfJoin(p[..|p| - 1]);
      assert Usable(p[|p| - 1], true);
    }
  }

  lemma JoinCharsSnoc(p: seq<Keyword>, n: nat)
    requires n < |p| && AllUsable(p, true)
    ensures var text := Join(p[..n + 1], true);
            |text| == n + 1 && text[..n] == Join(p[..n], true) && [text[n]] == p[n].name
  {
    CharsOfJoin(p[..n]);
    assert Usable(p[n], true);
    assert p[..n + 1][..n] == p[..n];
  }

  lemma {:induction false} ReadsSumChars(keys: seq<Keyword>, p: seq<Keyword>, j: nat)
    requires Table(keys, true) && AllFound(keys, p, true) && AllUsable(p, true) && j <= |p|
    ensures Sum(p[..j]) < WORD && ParseChars(keys, Join(p[..j], true)) == Members(Sum(p[..j]), j)
    decreases j
  {
    if j == 0 {
      assert p[..0] == [];
    } else {
      var n := j - 1;
      ReadsSumChars(keys, p, n);
      JoinCharsSnoc(p, n);
      var i := FoundStep(keys, p, true, n);
    }
  }

  lemma {:induction false} WordFree(n: string)
    requires '|' !in n
    ensures WordLength(n) == |n|
    ensures n != "" ==> Words(n) == [n]
  {
    if n != "" {
      WordFree(n[1..]);
      assert n[|n|..] == "" && n[..|n|] == n;
    }
  }

  lemma {:induction false} WordLengthSnoc(a: string, b: string)
    requires b != "" && b[0] == '|'
    ensures WordLength(a + b) == WordLength(a)
  {
    if a != "" && a[0] != '|' {
      assert (a + b)[1..] == a[1..] + b;
      WordLengthSnoc(a[1..], b);
    }
  }

  /** The words of a text are those before a separator and those after it. */
  lemma {:induction false} WordsApart(a: string, b: string)
    ensures Words(a + ("|" + b)) == Words(a) + Words(b)
    decreases |a|
  {
    if a == "" {
      assert a + ("|" + b) == "|" + b && ("|" + b)[1..] == b;
    } else if a[0] == '|' {
      assert (a + ("|" + b))[1..] == a[1..] + ("|" + b);
      WordsApart(a[1..], b);
    } else {
      var k := WordLength(a);
      WordsApart(a[k..], b);
      AfterFirstWord(a, "|" + b, k, Words(a[k..] + ("|" + b)), Words(a[k..]));
    }
  }

  lemma AfterFirstWord(a: string, c: string, k: nat, all: seq<string>, rest: seq<string>)
    requires a != "" && a[0] != '|' && c != "" && c[0] == '|' && k == WordLength(a)
    requires all == Words(a[k..] + c) && rest == Words(a[k..])
    ensures Words(a) == [a[..k]] + rest && Words(a + c) == [a[..k]] + all
  {
    WordLengthSnoc(a, c);
    SplitBefore(a, c, k);
    FirstWord(a + c, a[..k], a[k..] + c, k);
    FirstWord(a, a[..k], a[k..], k);
  }

  lemma SplitBefore(a: string, c: string, k: nat)
    requires k <= |a|
    ensures (a + c)[..k] == a[..k] && (a + c)[k..] == a[k..] + c
  {
  }

  lemma FirstWord(s: string, w: string, rest: string, k: nat)
    requires s != "" && s[0] != '|' && k == WordLength(s) && w == s[..k] && rest == s[k..]
    ensures Words(s) == [w] + Words(rest)
  {
  }

  /** The words of the text are the names printed. */
  lemma {:induction false} WordsOfJoin(p: seq<Keyword>)
    requires AllUsable(p, false)
    ensures Words(Join(p, false)) == Names(p) && (p != [] ==> Join(p, false) != "")
    decreases |p|
  {
    if p != [] {
      var n := |p| - 1;
      WordsOfJoin(p[..n]);
      assert Usable(p[n], false);
      assert Names(p) == Names(p[..n]) + [p[n].name];
      if n == 0 {
        WordFree(p[0].name);
        assert "" + p[0].name == p[0].name;
      } else {
        var a := Join(p[..n], false);
        assert a + "|" + p[n].name == a + ("|" + p[n].name);
        WordsApart(a, p[n].name);
        WordFree(p[n].name);
      }
    }
  }

  lemma {:induction false} NotNumeric(p: seq<Keyword>, charset: bool)
    requires AllUsable(p, false)
    ensures !Numeric(Join(p, charset))
    ensures p != [] ==> Join(p, charset) != "" && !Digit(Join(p, charset)[0])
    decreases |p|
  {
    if p != [] {
      var n := |p| - 1;
      NotNumeric(p[..n], charset);
      assert Usable(p[n], false);
    }
  }

  /** Reading back what was printed gives the value without its residue, from as many members as were
      printed; if the text is too long to be read, it is refused. */
  lemma RoundTrip(keys: seq<Keyword>, v: nat, charset: bool)
    requires Table(keys, charset)
    ensures var p := Printed(keys, v, v == 0);
            Parse(keys, Join(p, charset), charset) ==
            if |Join(p, charset)| > 4095 then Rejected else Members(v - Residue(keys, v, v == 0), |p|)
  {
    var p := Printed(keys, v, v == 0);
    PrintedUsable(keys, v, charset);
    PrintedFound(keys, v, charset);
    NotNumeric(p, charset);
    PrintedSum(keys, v, v == 0);
    assert p[..|p|] == p;
    if charset {
      ReadsSumChars(keys, p, |p|);
      CharsOfJoin(p);
    } else {
      ReadsSum(keys, p, charset, |p|);
      WordsOfJoin(p);
    }
  }

  lemma PrintedUsable(keys: seq<Keyword>, v: nat, charset: bool)
    requires Table(keys, charset)
    ensures AllUsable(Printed(keys, v, v == 0), charset) && AllUsable(Printed(keys, v, v == 0), false)
  {
    var p := Printed(keys, v, v == 0);
    forall k | 0 <= k < |p| ensures Usable(p[k], charset) && Usable(p[k], false) {
      var i := PrintedFrom(keys, v, v == 0, k);
      assert Usable(keys[i], charset);
    }
  }

  /** The value comes back exactly if nothing of it went unnamed. */
  lemma RoundTripIff(keys: seq<Keyword>, v: nat, charset: bool)
    requires Table(keys, charset)
    requires var p := Printed(keys, v, v == 0); |Join(p, charset)| <= 4095
    ensures var r := Parse(keys, Join(Printed(keys, v, v == 0), charset), charset);
            r.Members? && (r.value == v <==> Residue(keys, v, v == 0) == 0)
  {
    RoundTrip(keys, v, charset);
    PrintedSum(keys, v, v == 0);
  }

  /** Read back over the property it was printed from, the text leaves all 64 bits as they were exactly
      if the unnamed bits are those of the upper word, which reading does not touch. */
  lemma PropertyKeptIff(keys: seq<Keyword>, v: nat, charset: bool)
    requires Table(keys, charset)
    requires var p := Printed(keys, v, v == 0); |Join(p, charset)| <= 4095
    ensures var r := Parse(keys, Join(Printed(keys, v, v == 0), charset), charset);
            r.Members? && (Store(v, r.value) == v <==> Residue(keys, v, v == 0) == v - v % WORD)
  {
    RoundTrip(keys, v, charset);
    NamedIsWord(keys, v, charset);
    StoreIff(v, Residue(keys, v, v == 0));
  }

  lemma NamedIsWord(keys: seq<Keyword>, v: nat, charset: bool)
    requires Table(keys, charset)
    ensures v - Residue(keys, v, v == 0) < WORD
  {
    var p := Printed(keys, v, v == 0);
    PrintedSum(keys, v, v == 0);
    PrintedFound(keys, v, charset);
    ReadsSum(keys, p, charset, |p|);
    assert p[..|p|] == p;
  }

  lemma StoreIff(v: nat, rest: nat)
    requires rest <= v && v - rest < WORD
    ensures Store(v, v - rest) == v <==> rest == v - v % WORD
  {
  }

  // ---------------------------------------------------------------------------
  // Room
  // ---------------------------------------------------------------------------

  lemma {:induction false} JoinGrows(p: seq<Keyword>, charset: bool, k: nat)
    requires AllUsable(p, false) && k < |p|
    ensures |Join(p[..k + 1], charset)| ==
            |Join(p[..k], charset)| + |p[k].name| + (if k > 0 && !charset then 1 else 0)
    ensures |Join(p[..k + 1], charset)| <= |Join(p, charset)|
    ensures k + 1 < |p| ==> |Join(p[..k + 1], charset)| < |Join(p, charset)|
    decreases |p|
  {
    var n := |p| - 1;
    assert p[..k + 1][..k] == p[..k];
    NotNumeric(p[..k], charset);
    assert Usable(p[n], false);
    if k < n {
      JoinGrows(p[..n], charset, k);
      assert p[..n][..k + 1] == p[..k + 1] && p[..n][..k] == p[..k];
    } else {
      assert p[..k + 1] == p;
    }
  }

  /** The exact room printing needs: the text and its terminator, and one more, unused, if no separator
      is written. */
  lemma RoomIff(p: seq<Keyword>, charset: bool, size: int)
    requires AllUsable(p, false)
    ensures Room(p, charset, size) <==>
            p == [] || |Join(p, charset)| + (if charset || |p| == 1 then 1 else 0) < size
  {
    if p != [] {
      var n := |p| - 1;
      assert p[..n + 1] == p && p[..0] == [];
      JoinGrows(p, charset, n);
      JoinGrows(p, charset, 0);
      if |Join(p, charset)| + (if charset || |p| == 1 then 1 else 0) < size {
        forall k | 0 <= k < |p| ensures RoomFor(p, k, charset, size) { JoinGrows(p, charset, k); }
      } else {
        assert !RoomFor(p, n, charset, size);
      }
    }
  }
}
