/** The slices of Go's strings and strconv packages that the mail store relies on. */
module Text {

  datatype Option<+T> = None | Some(value: T)

  /** strings.IndexByte, with |s| standing for "absent". */
  function IndexByte(s: string, c: char): (i: nat)
    ensures i <= |s|
    ensures c !in s[..i]
    ensures i < |s| ==> s[i] == c
  {
    if s == "" then 0
    else if s[0] == c then 0
    else
      var i := IndexByte(s[1..], c) + 1;
      assert s[..i] == [s[0]] + s[1..][..i - 1];
      i
  }

  /** A separator preceded by text without it is found exactly there. */
  lemma {:induction false} IndexByteAfter(head: string, c: char, tail: string)
    requires c !in head
    ensures IndexByte(head + [c] + tail, c) == |head|
  {
    if head != "" {
      IndexByteAfter(head[1..], c, tail);
      assert (head + [c] + tail)[1..] == head[1..] + [c] + tail;
    }
  }

  lemma Assoc(a: string, b: string, c: string)
    ensures a + b + c == a + (b + c)
  {
  }

  // ----- decimal numbers -----

  predicate IsDigit(c: char) { '0' <= c <= '9' }

  predicate AllDigits(s: string) { forall i :: 0 <= i < |s| ==> IsDigit(s[i]) }

  function Digit(d: nat): (c: char)
    requires d < 10
    ensures IsDigit(c) && c as int - '0' as int == d
  {
    '0' + d as char
  }

  /** fmt's %d for a non-negative number. */
  function Decimal(n: nat): (s: string)
    ensures s != "" && AllDigits(s)
  {
    if n < 10 then [Digit(n)] else Decimal(n / 10) + [Digit(n % 10)]
  }

  function DigitsValue(s: string): nat
    requires AllDigits(s)
  {
    if s == "" then 0
    else 10 * DigitsValue(s[..|s| - 1]) + (s[|s| - 1] as int - '0' as int)
  }

  const TWO32 := 0x1_0000_0000

  /** strconv.ParseUint(s, 10, 32). */
  function ParseUint32(s: string): Option<nat> {
    if s != "" && AllDigits(s) && DigitsValue(s) < TWO32 then Some(DigitsValue(s)) else None
  }

  lemma {:induction false} DecimalValue(n: nat)
    ensures DigitsValue(Decimal(n)) == n
  {
    if n >= 10 {
      DecimalValue(n / 10);
      var s := Decimal(n);
      assert s[..|s| - 1] == Decimal(n / 10);
    }
  }

  /** Printing a 32-bit number and parsing it back returns it. */
  lemma DecimalRoundTrip(n: nat)
    requires n < TWO32
    ensures ParseUint32(Decimal(n)) == Some(n)
  {
    DecimalValue(n);
  }

  lemma {:induction false} DecimalLength(n: nat, k: nat)
    requires n < Pow10(k) && k > 0
    ensures |Decimal(n)| <= k
    decreases k
  {
    if n >= 10 { DecimalLength(n / 10, k - 1); }
  }

  function Pow10(k: nat): nat { if k == 0 then 1 else 10 * Pow10(k - 1) }

  /** A 32-bit number prints in at most ten digits. */
  lemma DecimalShort(n: nat)
    requires n < TWO32
    ensures |Decimal(n)| <= 10
  {
    assert Pow10(5) == 100000;
    assert Pow10(10) == 100000 * Pow10(5);
    DecimalLength(n, 10);
  }

  // ----- strings.Fields -----

  predicate IsSpace(c: char) { c == ' ' || '\t' <= c <= '\r' }

  function FieldEnd(s: string): (i: nat)
    ensures i <= |s|
    ensures forall k :: 0 <= k < i ==> !IsSpace(s[k])
    ensures i < |s| ==> IsSpace(s[i])
  {
    if s == "" || IsSpace(s[0]) then 0 else 1 + FieldEnd(s[1..])
  }

  function Fields(s: string): seq<string>
    decreases |s|
  {
    if s == "" then []
    else if IsSpace(s[0]) then Fields(s[1..])
    else [s[..FieldEnd(s)]] + Fields(s[FieldEnd(s)..])
  }

  predicate IsWord(w: string) { w != "" && forall k :: 0 <= k < |w| ==> !IsSpace(w[k]) }

  lemma {:induction false} FieldEndOfWord(w: string, rest: string)
    requires forall k :: 0 <= k < |w| ==> !IsSpace(w[k])
    requires rest == "" || IsSpace(rest[0])
    ensures FieldEnd(w + rest) == |w|
  {
    if w == "" {
      assert w + rest == rest;
    } else {
      FieldEndOfWord(w[1..], rest);
      assert (w + rest)[1..] == w[1..] + rest;
    }
  }

  lemma FirstField(w: string, rest: string)
    requires IsWord(w) && (rest == "" || IsSpace(rest[0]))
    ensures Fields(w + rest) == [w] + Fields(rest)
  {
    FieldEndOfWord(w, rest);
    assert (w + rest)[..|w|] == w && (w + rest)[|w|..] == rest;
  }

  /** Two words around one blank are the two fields. */
  lemma TwoFields(a: string, b: string)
    requires IsWord(a) && IsWord(b)
    ensures Fields(a + " " + b) == [a, b]
  {
    assert a + " " + b == a + (" " + b) && (" " + b)[1..] == b && b == b + "";
    FirstField(a, " " + b);
    FirstField(b, "");
  }

  // ----- bufio.Scanner with ScanLines -----

  function DropCR(line: string): string {
    if line != "" && line[|line| - 1] == '\r' then line[..|line| - 1] else line
  }

  /**
    The lines a bufio.Scanner with the given buffer limit yields: cut at line
    feeds, one trailing carriage return dropped, and nothing from the first
    line that does not fit the buffer on.
   */
  function ScanLines(text: string, limit: nat): seq<string>
    decreases |text|
  {
    if text == "" then []
    else
      var i := IndexByte(text, '\n');
      if i >= limit then []
      else [DropCR(text[..i])] + if i == |text| then [] else ScanLines(text[i + 1..], limit)
  }

  lemma ScanFirstLine(line: string, rest: string, limit: nat)
    requires '\n' !in line && |line| < limit
    ensures ScanLines(line + "\n" + rest, limit) == [DropCR(line)] + ScanLines(rest, limit)
  {
    IndexByteAfter(line, '\n', rest);
    var text := line + "\n" + rest;
    assert text == line + ['\n'] + rest;
    assert text[..|line|] == line && text[|line| + 1..] == rest;
  }

  // ----- addresses -----

  function Lower(s: string): (r: string)
    ensures |r| == |s|
  {
    seq(|s|, i requires 0 <= i < |s| => if 'A' <= s[i] <= 'Z' then s[i] + 32 as char else s[i])
  }

  /** Position of the last '@', |s| if none. */
  function LastAt(s: string): (i: nat)
    ensures i <= |s|
  {
    if s == "" then 0
    else if s[|s| - 1] == '@' then |s| - 1
    else if LastAt(s[..|s| - 1]) == |s| - 1 then |s| else LastAt(s[..|s| - 1])
  }

  /** The lowercased domain of a usable address. */
  function DomainOf(email: string): Option<string> {
    var at := LastAt(email);
    if at == 0 || at >= |email| - 1 then None else Some(Lower(email[at + 1..]))
  }

  /** strings.TrimSpace. */
  function Trim(s: string): string
    decreases |s|
  {
    if s == "" then ""
    else if IsSpace(s[0]) then Trim(s[1..])
    else if IsSpace(s[|s| - 1]) then Trim(s[..|s| - 1])
    else s
  }

  // ----- powers of two -----

  function Pow2(n: nat): (r: nat)
    ensures r >= 1
  {
    if n == 0 then 1 else 2 * Pow2(n - 1)
  }
}
