/** The parts of Go's `strings` package the models need, on sequences of characters. */
module Text {
  datatype Option<+T> = None | Some(value: T)

  lemma ConcatAssoc<T>(a: seq<T>, b: seq<T>, c: seq<T>)
    ensures (a + b) + c == a + (b + c)
  {
  }

  /** unicode.IsSpace */
  predicate IsSpace(c: char) {
    || '\t' <= c <= '\r' || c == ' ' || c == '\U{85}' || c == '\U{A0}' || c == '\U{1680}'
    || '\U{2000}' <= c <= '\U{200A}'
    || c == '\U{2028}' || c == '\U{2029}' || c == '\U{202F}' || c == '\U{205F}' || c == '\U{3000}'
  }

  function TrimLeft(s: string): (t: string)
    ensures t != "" ==> !IsSpace(t[0])
  {
    if s != "" && IsSpace(s[0]) then TrimLeft(s[1..]) else s
  }

  function TrimRight(s: string): (t: string)
    ensures t != "" ==> !IsSpace(t[|t| - 1])
    ensures |t| <= |s| && t == s[..|t|]
  {
    if s != "" && IsSpace(s[|s| - 1]) then TrimRight(s[..|s| - 1]) else s
  }

  function TrimSpace(s: string): string {
    TrimRight(TrimLeft(s))
  }

  predicate HasPrefix(s: string, p: string) {
    |p| <= |s| && s[..|p|] == p
  }

  predicate HasSuffix(s: string, p: string) {
    |p| <= |s| && s[|s| - |p|..] == p
  }

  function TrimPrefix(s: string, p: string): string {
    if HasPrefix(s, p) then s[|p|..] else s
  }

  predicate Contains(s: string, p: string) {
    exists i :: 0 <= i <= |s| && HasPrefix(s[i..], p)
  }

  /** No white space at either end. */
  predicate Trimmed(s: string) {
    s != "" ==> !IsSpace(s[0]) && !IsSpace(s[|s| - 1])
  }

  lemma {:induction false} TrimIsTrimmed(s: string)
    ensures Trimmed(TrimSpace(s))
  {
    var t := TrimLeft(s);
    assert TrimRight(t) != "" ==> TrimRight(t)[0] == t[0];
  }

  lemma TrimKeepsTrimmed(s: string)
    requires Trimmed(s)
    ensures TrimSpace(s) == s
  {
  }

  predicate Blank(s: string) {
    forall i :: 0 <= i < |s| ==> IsSpace(s[i])
  }

  lemma {:induction false} TrimLeftEmpty(s: string)
    ensures Blank(s) <==> TrimLeft(s) == ""
  {
    if s == "" || !IsSpace(s[0]) {
    } else {
      TrimLeftEmpty(s[1..]);
      assert Blank(s[1..]) ==> forall i :: 0 < i < |s| ==> s[i] == s[1..][i - 1] && IsSpace(s[i]);
      assert Blank(s) ==> Blank(s[1..]);
    }
  }

  lemma {:induction false} TrimRightKeeps(s: string)
    requires s != "" && !IsSpace(s[0])
    ensures TrimRight(s) != ""
  {
    if !IsSpace(s[|s| - 1]) {
    } else {
      TrimRightKeeps(s[..|s| - 1]);
    }
  }

  /** Blank texts are those that trimming leaves empty. */
  lemma BlankIff(s: string)
    ensures Blank(s) <==> TrimSpace(s) == ""
  {
    TrimLeftEmpty(s);
    var t := TrimLeft(s);
    if t != "" {
      TrimRightKeeps(t);
    }
  }

  lemma {:induction false} TrimLeftSnoc(s: string, c: char)
    requires IsSpace(c)
    ensures TrimLeft(s + [c]) == if TrimLeft(s) == "" then "" else TrimLeft(s) + [c]
  {
    var t := s + [c];
    if s == "" {
      assert t == [c] && t[1..] == "";
    } else if IsSpace(s[0]) {
      TrimLeftSnoc(s[1..], c);
      assert t[1..] == s[1..] + [c];
    }
  }

  /** White space at the end makes no difference to trimming. */
  lemma TrimSnoc(s: string, c: char)
    requires IsSpace(c)
    ensures TrimSpace(s + [c]) == TrimSpace(s)
  {
    TrimLeftSnoc(s, c);
    if TrimLeft(s) != "" {
      var t := TrimLeft(s) + [c];
      assert t[..|t| - 1] == TrimLeft(s);
    }
  }

  /** Trimming takes out a part of the text. */
  lemma {:induction false} TrimLeftIsSuffix(s: string)
    ensures |TrimLeft(s)| <= |s| && TrimLeft(s) == s[|s| - |TrimLeft(s)|..]
  {
    if s == "" || !IsSpace(s[0]) {
    } else {
      TrimLeftIsSuffix(s[1..]);
    }
  }

  lemma TrimKeepsChars(s: string)
    ensures forall c :: c in TrimSpace(s) ==> c in s
  {
    TrimLeftIsSuffix(s);
    var t := TrimLeft(s);
    assert TrimRight(t) == t[..|TrimRight(t)|];
  }

  /** The upper-case letters A-Z a character maps to under unicode.ToUpper; other characters are
      left alone, which decides every comparison with an upper-case ASCII prefix. */
  function Upper(c: char): char {
    if 'a' <= c <= 'z' then ((c as int) - 32) as char
    else if c == '\U{0131}' then 'I'
    else if c == '\U{017F}' then 'S'
    else c
  }

  predicate HasPrefixUpper(s: string, p: string) {
    |p| <= |s| && forall i :: 0 <= i < |p| ==> Upper(s[i]) == p[i]
  }

  /** Length of the UTF-8 encoding. */
  function ByteLen(s: string): nat {
    if s == "" then 0
    else ByteLen(s[1..]) + var c := s[0] as int; if c < 0x80 then 1 else if c < 0x800 then 2 else if c < 0x10000 then 3 else 4
  }

  /** Decimal digits of a natural number. */
  function Decimal(n: nat): string {
    if n < 10 then [((n + '0' as int) as char)] else Decimal(n / 10) + [((n % 10 + '0' as int) as char)]
  }

  /** The number a string of decimal digits stands for. */
  function NumberOf(digits: string): int {
    if digits == "" then 0 else 10 * NumberOf(digits[..|digits| - 1]) + digits[|digits| - 1] as int - '0' as int
  }

  /** Decimal writes the number, in digits. */
  lemma {:induction false} DecimalIsNumber(n: nat)
    ensures NumberOf(Decimal(n)) == n && Decimal(n) != ""
    ensures forall c :: c in Decimal(n) ==> '0' <= c <= '9'
  {
    if n < 10 {
      assert Decimal(n)[..0] == "";
    } else {
      DecimalIsNumber(n / 10);
      var last := [((n % 10 + '0' as int) as char)];
      assert (Decimal(n / 10) + last)[..|Decimal(n / 10)|] == Decimal(n / 10);
    }
  }

  /** The white space among the ASCII characters. */
  lemma AsciiSpace(c: char)
    requires c as int < 128
    ensures IsSpace(c) <==> c in {'\t', '\n', '\U{B}', '\U{C}', '\r', ' '}
  {
  }

  lemma {:induction false} TrimLeftDropsSpace(s: string)
    ensures |TrimLeft(s)| <= |s| && s == s[..|s| - |TrimLeft(s)|] + TrimLeft(s) && Blank(s[..|s| - |TrimLeft(s)|])
  {
    if s == "" || !IsSpace(s[0]) {
    } else {
      TrimLeftDropsSpace(s[1..]);
      var k := |s| - |TrimLeft(s)|;
      assert s[..k] == [s[0]] + s[1..][..k - 1];
    }
  }

  lemma {:induction false} TrimRightDropsSpace(s: string)
    ensures |TrimRight(s)| <= |s| && s == TrimRight(s) + s[|TrimRight(s)|..] && Blank(s[|TrimRight(s)|..])
  {
    if s == "" || !IsSpace(s[|s| - 1]) {
    } else {
      var front := s[..|s| - 1];
      TrimRightDropsSpace(front);
      assert s[|TrimRight(front)|..] == front[|TrimRight(front)|..] + [s[|s| - 1]];
    }
  }

  /** Trimming takes white space off both ends, all of it and nothing else. */
  lemma TrimDropsSpace(s: string) returns (front: string, back: string)
    ensures s == front + TrimSpace(s) + back && Blank(front) && Blank(back) && Trimmed(TrimSpace(s))
  {
    TrimLeftDropsSpace(s);
    var t := TrimLeft(s);
    TrimRightDropsSpace(t);
    TrimIsTrimmed(s);
    front, back := s[..|s| - |t|], t[|TrimRight(t)|..];
    ConcatAssoc(front, TrimSpace(s), back);
  }

  /** An ASCII text has as many bytes as characters; joining texts joins their bytes; no character takes more than four. */
  lemma {:induction false} BytesOfText(a: string, b: string)
    ensures ByteLen(a + b) == ByteLen(a) + ByteLen(b)
    ensures |a| <= ByteLen(a) <= 4 * |a|
    ensures (forall c :: c in a ==> c as int < 128) ==> ByteLen(a) == |a|
  {
    if a == "" {
      assert a + b == b;
    } else {
      BytesOfText(a[1..], b);
      assert (a + b)[1..] == a[1..] + b;
      assert a == [a[0]] + a[1..] && a[0] in a;
      assert forall c :: c in a[1..] ==> c in a;
    }
  }
}
