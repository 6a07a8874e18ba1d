/** Lexical helpers used by both the body decoder and the head validator. */
module Syntax {
  import opened Prelude

  predicate IsOws(b: Byte) { b == SP || b == HT }

  predicate IsDigit(b: Byte) { 48 <= b <= 57 }

  predicate IsAlpha(b: Byte) { 65 <= b <= 90 || 97 <= b <= 122 }

  predicate IsTchar(b: Byte)
  {
    IsDigit(b) || IsAlpha(b)
    || b in {33, 35, 36, 37, 38, 39, 42, 43, 45, 46, 94, 95, 96, 124, 126}
  }

  predicate IsToken(value: Bytes)
  {
    value != [] && forall i :: 0 <= i < |value| ==> IsTchar(value[i])
  }

  function LowerByte(b: Byte): Byte { if 65 <= b <= 90 then b + 32 else b }

  /** Equality up to ASCII case. */
  predicate EqIgnoreCase(a: Bytes, b: Bytes)
  {
    |a| == |b| && forall i :: 0 <= i < |a| ==> LowerByte(a[i]) == LowerByte(b[i])
  }

  function TrimStart(value: Bytes): (r: Bytes)
    ensures |r| <= |value|
  {
    if value != [] && IsOws(value[0]) then TrimStart(value[1..]) else value
  }

  function TrimEnd(value: Bytes): (r: Bytes)
    ensures r <= value
  {
    if value != [] && IsOws(value[|value| - 1]) then TrimEnd(value[..|value| - 1]) else value
  }

  function Trim(value: Bytes): (r: Bytes)
    ensures |r| <= |value|
  {
    TrimEnd(TrimStart(value))
  }

  /** Removes optional white space from both ends by shrinking a slice in place. */
  method TrimOws(input: Bytes) returns (value: Bytes)
    ensures value == Trim(input)
  {
    value := input;
    while value != [] && IsOws(value[0])
      invariant TrimStart(value) == TrimStart(input)
      decreases |value|
    {
      value := value[1..];
    }
    while value != [] && IsOws(value[|value| - 1])
      invariant TrimEnd(value) == Trim(input)
      decreases |value|
    {
      value := value[..|value| - 1];
    }
  }

  /** Trimming finds the one core between white-space margins that has none of its own. */
  lemma {:induction false} TrimIsUnique(left: Bytes, core: Bytes, right: Bytes)
    requires forall i :: 0 <= i < |left| ==> IsOws(left[i])
    requires forall i :: 0 <= i < |right| ==> IsOws(right[i])
    requires core != [] ==> !IsOws(core[0]) && !IsOws(core[|core| - 1])
    ensures Trim(left + core + right) == core
    decreases |left| + |right|
  {
    var whole := left + core + right;
    if left != [] {
      assert whole[1..] == left[1..] + core + right;
      TrimIsUnique(left[1..], core, right);
    } else if core == [] && right != [] {
      assert whole[1..] == left + core + right[1..];
      TrimIsUnique(left, core, right[1..]);
    } else if right != [] {
      assert whole[..|whole| - 1] == left + core + right[..|right| - 1];
      TrimIsUnique(left, core, right[..|right| - 1]);
    } else {
      assert whole == core;
    }
  }

  /** The number of leading token characters. */
  function TokenLen(input: Bytes): (n: nat)
    ensures n <= |input|
    ensures forall i :: 0 <= i < n ==> IsTchar(input[i])
    ensures n < |input| ==> !IsTchar(input[n])
  {
    if input != [] && IsTchar(input[0]) then
      var n := TokenLen(input[1..]);
      assert forall i :: 0 < i < n + 1 ==> input[i] == input[1..][i - 1];
      n + 1
    else 0
  }

  predicate QuotedTextByte(b: Byte)
  {
    b != CR && b != LF && b != DEL && (b >= 32 || b == HT)
  }

  /** The position just after the closing quote when scanning from `at`, if there is one. */
  function QuotedEnd(input: Bytes, at: nat, escaped: bool): (end: Option<nat>)
    requires at <= |input|
    ensures end.Some? ==> at < end.value <= |input| && input[end.value - 1] == DQUOTE
    decreases |input| - at
  {
    if at == |input| then None
    else
      var b := input[at];
      if escaped then
        if b == CR || b == LF then None else QuotedEnd(input, at + 1, false)
      else if b == BACKSLASH then QuotedEnd(input, at + 1, true)
      else if b == DQUOTE then Some(at + 1)
      else if !QuotedTextByte(b) then None
      else QuotedEnd(input, at + 1, false)
  }

  /** The opening quote is skipped unread, as callers have already looked at it. */
  method QuotedStringLen(input: Bytes) returns (length: Option<nat>)
    ensures length == if input == [] then None else QuotedEnd(input, 1, false)
    ensures length.Some? ==> length.value <= |input|
  {
    var escaped := false;
    var index := 1;
    while index < |input|
      invariant 1 <= index
      invariant input != [] ==> index <= |input|
      invariant input != [] ==> QuotedEnd(input, index, escaped) == QuotedEnd(input, 1, false)
    {
      var b := input[index];
      if escaped {
        if b == CR || b == LF { return None; }
        escaped := false;
      } else if b == BACKSLASH {
        escaped := true;
      } else if b == DQUOTE {
        return Some(index + 1);
      } else if !QuotedTextByte(b) {
        return None;
      }
      index := index + 1;
    }
    return None;
  }
}
