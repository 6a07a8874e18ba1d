/** The grammar of chunk extensions, and that it is exactly what the extension check accepts. */
module ChunkExtensions {
  import opened Prelude
  import opened Syntax
  import opened ChunkGrammar

  predicate Blank(space: Bytes) { forall i :: 0 <= i < |space| ==> IsOws(space[i]) }

  predicate IsQuoted(text: Bytes) { text != [] && text[0] == DQUOTE && QuotedEnd(text, 1, false) == Some(|text|) }

  datatype Assigned = Assigned(left: Bytes, right: Bytes, text: Bytes)

  /** One extension: a semicolon and a name, perhaps with a value, with optional space anywhere between. */
  datatype Extension = Extension(before: Bytes, between: Bytes, name: Bytes, value: Option<Assigned>)

  predicate Sound(e: Extension)
  {
    && Blank(e.before) && Blank(e.between) && IsToken(e.name)
    && (e.value.Some? ==>
          Blank(e.value.value.left) && Blank(e.value.value.right) && (IsToken(e.value.value.text) || IsQuoted(e.value.value.text)))
  }

  predicate AllSound(es: seq<Extension>) { forall i :: 0 <= i < |es| ==> Sound(es[i]) }

  function ValuePart(e: Extension): Bytes
  {
    if e.value.None? then [] else e.value.value.left + ([EQUALS] + (e.value.value.right + e.value.value.text))
  }

  /** The extensions one after another, and space behind them. */
  function Render(es: seq<Extension>, after: Bytes): Bytes
  {
    if es == [] then after
    else es[0].before + ([SEMICOLON] + (es[0].between + (es[0].name + (ValuePart(es[0]) + Render(es[1..], after)))))
  }

  ghost predicate Written(input: Bytes, es: seq<Extension>, after: Bytes)
  {
    AllSound(es) && Blank(after) && input == Render(es, after)
  }

  // ---- trimming ---------------------------------------------------------------------

  lemma {:induction false} EndIsBlank(x: Bytes)
    ensures |TrimEnd(x)| <= |x| && forall i :: |TrimEnd(x)| <= i < |x| ==> IsOws(x[i])
    ensures TrimEnd(x) != [] ==> !IsOws(TrimEnd(x)[|TrimEnd(x)| - 1])
  {
    if x != [] && IsOws(x[|x| - 1]) {
      EndIsBlank(x[..|x| - 1]);
    }
  }

  lemma EndParts(x: Bytes) returns (right: Bytes)
    ensures Blank(right) && x == TrimEnd(x) + right
    ensures TrimEnd(x) != [] ==> !IsOws(TrimEnd(x)[|TrimEnd(x)| - 1])
  {
    hide TrimEnd, IsOws;
    EndIsBlank(x);
    right := x[|TrimEnd(x)|..];
  }

  lemma {:induction false} StartParts(x: Bytes) returns (left: Bytes)
    ensures Blank(left) && x == left + TrimStart(x)
    ensures TrimStart(x) != [] ==> !IsOws(TrimStart(x)[0])
  {
    if x != [] && IsOws(x[0]) {
      left := StartParts(x[1..]);
      left := [x[0]] + left;
      assert x == [x[0]] + x[1..];
    } else {
      left := [];
    }
  }

  lemma TrimParts(x: Bytes) returns (left: Bytes, right: Bytes)
    ensures Blank(left) && Blank(right) && x == left + Trim(x) + right
    ensures Trim(x) != [] ==> !IsOws(Trim(x)[0]) && !IsOws(Trim(x)[|Trim(x)| - 1])
  {
    hide TrimStart, TrimEnd;
    left := StartParts(x);
    right := EndParts(TrimStart(x));
    assert Trim(x) != [] ==> Trim(x)[0] == TrimStart(x)[0];
  }

  /** Space around a text does not matter to trimming it. */
  lemma TrimPad(left: Bytes, x: Bytes, right: Bytes)
    requires Blank(left) && Blank(right)
    ensures Trim(left + x + right) == Trim(x)
  {
    hide Trim, IsOws;
    var l, r := TrimParts(x);
    assert left + x + right == (left + l) + Trim(x) + (r + right);
    TrimIsUnique(left + l, Trim(x), r + right);
  }

  /** A text without outer space in front keeps its place. */
  lemma TrimBehind(front: Bytes, x: Bytes)
    requires front != [] && !IsOws(front[0]) && !IsOws(front[|front| - 1])
    ensures Trim(front + x) == front + TrimEnd(x) && Trim(TrimEnd(x)) == Trim(x)
  {
    hide Trim, IsOws, TrimEnd;
    var r := EndParts(x);
    var core := front + TrimEnd(x);
    assert front + x == [] + core + r;
    TrimIsUnique([], core, r);
    assert x == [] + TrimEnd(x) + r;
    TrimPad([], TrimEnd(x), r);
  }

  // ---- what the pieces look like ----------------------------------------------------

  lemma TokenEnds(name: Bytes)
    requires IsToken(name)
    ensures !IsOws(name[0]) && !IsOws(name[|name| - 1]) && name[0] != DQUOTE
  {
  }

  /** A token ends where no token character follows. */
  lemma {:induction false} TokenLenOf(name: Bytes, x: Bytes)
    requires (forall i :: 0 <= i < |name| ==> IsTchar(name[i])) && (x == [] || !IsTchar(x[0]))
    ensures TokenLen(name + x) == |name|
  {
    assert forall i :: 0 <= i < |name| ==> (name + x)[i] == name[i];
    assert x != [] ==> (name + x)[|name|] == x[0];
  }

  lemma {:induction false} QuotedPrefix(text: Bytes, x: Bytes, at: nat, escaped: bool)
    requires at <= |text| && QuotedEnd(text, at, escaped).Some?
    ensures QuotedEnd(text + x, at, escaped) == QuotedEnd(text, at, escaped)
    decreases |text| - at
  {
    var b := text[at];
    assert (text + x)[at] == b;
    if escaped {
      QuotedPrefix(text, x, at + 1, false);
    } else if b == BACKSLASH {
      QuotedPrefix(text, x, at + 1, true);
    } else if b != DQUOTE {
      QuotedPrefix(text, x, at + 1, false);
    }
  }

  lemma ValueLenOf(text: Bytes, x: Bytes)
    requires IsToken(text) || IsQuoted(text)
    requires x == [] || !IsTchar(x[0])
    ensures ValueLen(text + x) == Some(|text|) && !IsOws(text[0]) && !IsOws(text[|text| - 1])
  {
    hide IsTchar;
    if IsQuoted(text) {
      QuotedPrefix(text, x, 1, false);
      assert (text + x)[0] == DQUOTE;
    } else {
      TokenEnds(text);
      TokenLenOf(text, x);
      assert (text + x)[0] == text[0];
    }
  }

  /** A value that was measured is a token or a quoted string. */
  lemma MeasuredValue(input: Bytes)
    requires ValueLen(input).Some?
    ensures var text := input[..ValueLen(input).value]; IsToken(text) || IsQuoted(text)
  {
    var n := ValueLen(input).value;
    if input[0] == DQUOTE {
      QuotedWithin(input, 1, false);
    }
  }

  lemma {:induction false} QuotedWithin(input: Bytes, at: nat, escaped: bool)
    requires at <= |input| && QuotedEnd(input, at, escaped).Some?
    ensures var n := QuotedEnd(input, at, escaped).value; QuotedEnd(input[..n], at, escaped) == Some(n)
    decreases |input| - at
  {
    var n := QuotedEnd(input, at, escaped).value;
    assert input[..n][at] == input[at];
    if escaped {
      QuotedWithin(input, at + 1, false);
    } else if input[at] == BACKSLASH {
      QuotedWithin(input, at + 1, true);
    } else if input[at] != DQUOTE {
      QuotedWithin(input, at + 1, false);
    }
  }

  // ---- quoted strings ---------------------------------------------------------------

  /** A byte of a quoted string, as it is or behind a backslash. */
  datatype QuotedPart = Plain(b: Byte) | Escaped(b: Byte)

  predicate PartOk(p: QuotedPart)
  {
    if p.Plain? then QuotedTextByte(p.b) && p.b != DQUOTE && p.b != BACKSLASH else p.b != CR && p.b != LF
  }

  function RenderParts(parts: seq<QuotedPart>): Bytes
  {
    if parts == [] then []
    else (if parts[0].Plain? then [parts[0].b] else [BACKSLASH, parts[0].b]) + RenderParts(parts[1..])
  }

  ghost predicate QuotedAs(text: Bytes, parts: seq<QuotedPart>)
  {
    (forall i :: 0 <= i < |parts| ==> PartOk(parts[i])) && text == RenderParts(parts) + [DQUOTE]
  }

  lemma PartInFront(p: QuotedPart, text: Bytes, parts: seq<QuotedPart>)
    requires PartOk(p) && QuotedAs(text, parts)
    ensures QuotedAs((if p.Plain? then [p.b] else [BACKSLASH, p.b]) + text, [p] + parts)
  {
    assert ([p] + parts)[1..] == parts;
    Assoc(if p.Plain? then [p.b] else [BACKSLASH, p.b], RenderParts(parts), [DQUOTE]);
  }

  lemma {:induction false} ScannedIsQuoted(text: Bytes, at: nat) returns (parts: seq<QuotedPart>)
    requires at <= |text| && QuotedEnd(text, at, false) == Some(|text|)
    ensures QuotedAs(text[at..], parts)
    decreases |text| - at
  {
    hide QuotedAs, PartOk;
    var b := text[at];
    if b == DQUOTE {
      parts := [];
      assert text[at..] == [DQUOTE];
      ClosingQuote();
    } else if b == BACKSLASH {
      assert QuotedEnd(text, at + 1, true) == QuotedEnd(text, at + 2, false);
      parts := ScannedIsQuoted(text, at + 2);
      assert text[at..] == [BACKSLASH, text[at + 1]] + text[at + 2..];
      assert PartOk(Escaped(text[at + 1])) by { EscapedOk(text[at + 1]); }
      PartInFront(Escaped(text[at + 1]), text[at + 2..], parts);
      parts := [Escaped(text[at + 1])] + parts;
    } else {
      parts := ScannedIsQuoted(text, at + 1);
      assert text[at..] == [b] + text[at + 1..];
      assert PartOk(Plain(b)) by { PlainOk(b); }
      PartInFront(Plain(b), text[at + 1..], parts);
      parts := [Plain(b)] + parts;
    }
  }

  lemma ClosingQuote()
    ensures QuotedAs([DQUOTE], [])
  {
  }

  lemma EscapedOk(b: Byte)
    requires b != CR && b != LF
    ensures PartOk(Escaped(b))
  {
  }

  lemma PlainOk(b: Byte)
    requires QuotedTextByte(b) && b != DQUOTE && b != BACKSLASH
    ensures PartOk(Plain(b))
  {
  }

  lemma {:induction false} QuotedIsScanned(text: Bytes, at: nat, parts: seq<QuotedPart>)
    requires at <= |text| && QuotedAs(text[at..], parts)
    ensures QuotedEnd(text, at, false) == Some(|text|)
    decreases |parts|
  {
    var rest := text[at..];
    if parts == [] {
      assert rest == [DQUOTE];
      assert text[at] == rest[0];
    } else {
      var front := if parts[0].Plain? then [parts[0].b] else [BACKSLASH, parts[0].b];
      Assoc(front, RenderParts(parts[1..]), [DQUOTE]);
      assert rest == front + (RenderParts(parts[1..]) + [DQUOTE]);
      assert text[at] == rest[0] && (parts[0].Escaped? ==> text[at + 1] == rest[1]);
      assert text[at + |front|..] == rest[|front|..] == RenderParts(parts[1..]) + [DQUOTE];
      QuotedIsScanned(text, at + |front|, parts[1..]);
    }
  }

  /** A quoted string is two quotes around plain and escaped bytes. */
  lemma QuotedGrammar(text: Bytes)
    requires text != [] && text[0] == DQUOTE
    ensures IsQuoted(text) <==> exists parts: seq<QuotedPart> :: QuotedAs(text[1..], parts)
  {
    hide QuotedAs, QuotedEnd;
    if IsQuoted(text) {
      var parts := ScannedIsQuoted(text, 1);
    } else if parts: seq<QuotedPart> :| QuotedAs(text[1..], parts) {
      QuotedIsScanned(text, 1, parts);
    }
  }

  // ---- accepted extensions are written by the grammar -------------------------------

  /** Space around written extensions belongs to the first of them and to what follows the last. */
  lemma Padded(left: Bytes, input: Bytes, right: Bytes, es: seq<Extension>, after: Bytes)
    returns (fs: seq<Extension>, later: Bytes)
    requires Blank(left) && Blank(right) && Written(input, es, after)
    ensures Written(left + input + right, fs, later) && |fs| == |es|
  {
    if es == [] {
      fs, later := [], left + after + right;
    } else {
      hide IsOws, ValuePart;
      var e := es[0];
      var first := e.(before := left + e.before);
      AfterMore(es, after, right);
      fs, later := [first] + es[1..], after + right;
      assert fs[1..] == es[1..];
      var body := [SEMICOLON] + (e.between + (e.name + (ValuePart(e) + Render(es[1..], later))));
      Assoc(left, e.before, body);
      assert left + input + right == left + Render(es, later);
    }
  }

  lemma {:induction false} AfterMore(es: seq<Extension>, after: Bytes, right: Bytes)
    ensures Render(es, after + right) == Render(es, after) + right
  {
    if es != [] {
      var e, tail := es[0], Render(es[1..], after);
      AfterMore(es[1..], after, right);
      Assoc(ValuePart(e), tail, right);
      Assoc(e.name, ValuePart(e) + tail, right);
      Assoc(e.between, e.name + (ValuePart(e) + tail), right);
      Assoc([SEMICOLON], e.between + (e.name + (ValuePart(e) + tail)), right);
      Assoc(e.before, [SEMICOLON] + (e.between + (e.name + (ValuePart(e) + tail))), right);
    }
  }

  /** One extension in front of others. */
  lemma InFront(e: Extension, rest: Bytes, es: seq<Extension>, after: Bytes)
    requires Sound(e) && Written(rest, es, after)
    ensures Written(e.before + ([SEMICOLON] + (e.between + (e.name + (ValuePart(e) + rest)))), [e] + es, after)
  {
    assert ([e] + es)[1..] == es;
  }

  lemma {:induction false} AcceptedIsWritten(input: Bytes) returns (es: seq<Extension>, after: Bytes)
    requires ExtensionsOk(input)
    ensures Written(input, es, after)
    decreases |input|
  {
    hide Trim, Written, IsTchar, IsOws, ValueLen, TokenLen, IsToken, Blank;
    if input == [] {
      es, after := [], [];
      NothingWritten();
    } else {
      var item := Trim(input);
      var named := Trim(item[1..]);
      var n := TokenLen(named);
      var rest := Trim(named[n..]);
      if rest != [] && rest[0] == EQUALS {
        var valued := Trim(rest[1..]);
        var tail := Trim(valued[ValueLen(valued).value..]);
        es, after := AcceptedIsWritten(tail);
        es, after := ValueTaken(input, es, after);
      } else {
        es, after := AcceptedIsWritten(rest);
        es, after := NameTaken(input, es, after);
      }
    }
  }

  lemma MeasuredName(input: Bytes)
    requires TokenLen(input) > 0
    ensures IsToken(input[..TokenLen(input)])
  {
  }

  /** A name without a value, and what is behind it. */
  lemma NameTaken(input: Bytes, es: seq<Extension>, after: Bytes) returns (all: seq<Extension>, later: Bytes)
    requires Trim(input) != [] && Trim(input)[0] == SEMICOLON
    requires var named := Trim(Trim(input)[1..]);
      TokenLen(named) > 0 && Written(Trim(named[TokenLen(named)..]), es, after)
    ensures Written(input, all, later)
  {
    hide Trim, Written, IsOws, TokenLen, IsToken, Blank;
    var l, r := TrimParts(input);
    var item := Trim(input);
    var l1, r1 := TrimParts(item[1..]);
    var named := Trim(item[1..]);
    var n := TokenLen(named);
    MeasuredName(named);
    var l2, r2 := TrimParts(named[n..]);
    var rest := Trim(named[n..]);
    BlankJoin(r1, r);
    BlankJoin(r2, r1 + r);
    var fs;
    fs, later := Padded(l2, rest, r2 + (r1 + r), es, after);
    var e := Extension(l, l1, named[..n], None);
    assert l2 + rest + (r2 + (r1 + r)) == l2 + rest + r2 + (r1 + r);
    InFront(e, l2 + rest + (r2 + (r1 + r)), fs, later);
    WithoutValue(input, l, l1, named[..n], l2 + rest + r2, r1, r, named, item);
    all := [e] + fs;
  }

  /** A name with a value, and what is behind it. */
  lemma ValueTaken(input: Bytes, es: seq<Extension>, after: Bytes) returns (all: seq<Extension>, later: Bytes)
    requires Trim(input) != [] && Trim(input)[0] == SEMICOLON
    requires var named := Trim(Trim(input)[1..]);
      TokenLen(named) > 0 &&
      var rest := Trim(named[TokenLen(named)..]);
      rest != [] && rest[0] == EQUALS &&
      var valued := Trim(rest[1..]);
      ValueLen(valued).Some? && Written(Trim(valued[ValueLen(valued).value..]), es, after)
    ensures Written(input, all, later)
  {
    hide Trim, Written, IsOws, TokenLen, IsToken, Blank, ValueLen, IsQuoted;
    var l, r := TrimParts(input);
    var item := Trim(input);
    var l1, r1 := TrimParts(item[1..]);
    var named := Trim(item[1..]);
    var n := TokenLen(named);
    MeasuredName(named);
    var l2, r2 := TrimParts(named[n..]);
    var rest := Trim(named[n..]);
    var l3, r3 := TrimParts(rest[1..]);
    var valued := Trim(rest[1..]);
    var k := ValueLen(valued).value;
    MeasuredValue(valued);
    var l4, r4 := TrimParts(valued[k..]);
    var tail := Trim(valued[k..]);
    var margin := r3 + (r2 + (r1 + r));
    BlankJoin(r1, r);
    BlankJoin(r2, r1 + r);
    BlankJoin(r3, r2 + (r1 + r));
    BlankJoin(r4, margin);
    var fs;
    fs, later := Padded(l4, tail, r4 + margin, es, after);
    var e := Extension(l, l1, named[..n], Some(Assigned(l2, l3, valued[..k])));
    Assoc(l4 + tail, r4, margin);
    InFront(e, l4 + tail + r4 + margin, fs, later);
    WithValue(input, l, l1, named[..n], l2, l3, valued[..k], l4 + tail + r4, r3, r2, r1, r, rest, valued, named, item);
    all := [e] + fs;
  }

  lemma BlankJoin(a: Bytes, b: Bytes)
    requires Blank(a) && Blank(b)
    ensures Blank(a + b)
  {
  }

  lemma NothingWritten()
    ensures Written([], [], [])
  {
  }

  lemma WithValue(input: Bytes, l: Bytes, l1: Bytes, name: Bytes, l2: Bytes, l3: Bytes, text: Bytes, behind: Bytes,
                  r3: Bytes, r2: Bytes, r1: Bytes, r: Bytes, rest: Bytes, valued: Bytes, named: Bytes, item: Bytes)
    requires valued == text + behind && rest != [] && rest[0] == EQUALS && rest[1..] == l3 + valued + r3
    requires named == name + (l2 + rest + r2) && item != [] && item[0] == SEMICOLON && item[1..] == l1 + named + r1
    requires input == l + item + r
    ensures input == l + ([SEMICOLON] + (l1 + (name + (l2 + ([EQUALS] + (l3 + text)) + (behind + (r3 + (r2 + (r1 + r))))))))
  {
    assert rest == [EQUALS] + (l3 + (text + behind) + r3);
    assert item == [SEMICOLON] + (l1 + named + r1);
    assert l2 + rest + r2 == l2 + ([EQUALS] + (l3 + text)) + (behind + (r3 + r2));
    assert input == l + ([SEMICOLON] + (l1 + (named + (r1 + r))));
  }

  lemma WithoutValue(input: Bytes, l: Bytes, l1: Bytes, name: Bytes, behind: Bytes, r1: Bytes, r: Bytes, named: Bytes, item: Bytes)
    requires named == name + behind && item != [] && item[0] == SEMICOLON && item[1..] == l1 + named + r1
    requires input == l + item + r
    ensures input == l + ([SEMICOLON] + (l1 + (name + ([] + (behind + (r1 + r))))))
  {
    assert item == [SEMICOLON] + (l1 + named + r1);
    assert input == l + ([SEMICOLON] + (l1 + (named + (r1 + r))));
  }

  // ---- written extensions are accepted ----------------------------------------------

  /** What may stand behind a name or a value: nothing, space, a semicolon, or more. */
  lemma BehindIsNoToken(es: seq<Extension>, after: Bytes)
    requires AllSound(es) && Blank(after)
    ensures var t := Render(es, after); t == [] || IsOws(t[0]) || t[0] == SEMICOLON
  {
    if es != [] && es[0].before != [] {
      assert IsOws(es[0].before[0]);
    }
  }

  lemma PrefixIsNoToken(t: Bytes)
    requires t == [] || IsOws(t[0]) || t[0] == SEMICOLON || t[0] == EQUALS
    ensures var cut := TrimEnd(t); cut == [] || !IsTchar(cut[0])
  {
  }

  /** Rendered extensions, trimmed: nothing is left of none, and the first semicolon of some. */
  lemma TrimmedRender(es: seq<Extension>, after: Bytes)
    requires AllSound(es) && Blank(after)
    ensures var t := Trim(Render(es, after)); if es == [] then t == [] else t != [] && t[0] == SEMICOLON
  {
    hide Trim, TrimEnd, IsTchar;
    if es == [] {
      TrimIsUnique(after, [], []);
      assert after + [] + [] == after;
    } else {
      var x := es[0].between + (es[0].name + (ValuePart(es[0]) + Render(es[1..], after)));
      TrimPad(es[0].before, [SEMICOLON] + x, []);
      assert es[0].before + ([SEMICOLON] + x) + [] == Render(es, after);
      TrimBehind([SEMICOLON], x);
    }
  }

  /** The check looks only at what is between the outer spaces. */
  lemma SpaceIsIgnored(input: Bytes)
    requires Trim(input) != []
    ensures ExtensionsOk(Trim(input)) == ExtensionsOk(input) && |Trim(input)| > 0
  {
    hide Trim, TrimEnd, IsTchar, IsOws, ValueLen;
    var l, r := TrimParts(input);
    TrimPad(l, Trim(input), r);
    assert Trim(Trim(input)) == Trim(input);
  }

  lemma {:induction false} WrittenIsAccepted(es: seq<Extension>, after: Bytes)
    requires AllSound(es) && Blank(after) && es != []
    ensures ExtensionsOk(Render(es, after))
    decreases |es|
  {
    hide Trim, TrimEnd, IsTchar, IsOws, ValueLen, IsToken, IsQuoted, TokenLen;
    var e, t := es[0], Render(es[1..], after);
    var behind := ValuePart(e) + t;
    TrimmedRender(es[1..], after);
    if |es| > 1 {
      WrittenIsAccepted(es[1..], after);
      SpaceIsIgnored(t);
    }
    assert ExtensionsOk(Trim(t)) && (Trim(t) == [] || Trim(t)[0] == SEMICOLON);
    NamePart(e, t);
    ValueRead(e, es[1..], after);
    TrimPad(e.before, [SEMICOLON] + (e.between + (e.name + behind)), []);
    assert Render(es, after) == e.before + ([SEMICOLON] + (e.between + (e.name + behind))) + [];
    var named := e.name + TrimEnd(behind);
    assert named[|e.name|..] == TrimEnd(behind);
    if e.value.Some? {
      var text := e.value.value.text;
      assert (text + TrimEnd(t))[|text|..] == TrimEnd(t);
    } else {
      assert behind == t;
    }
  }

  /** The semicolon and the name are found, and what is behind the name is looked at next. */
  lemma NamePart(e: Extension, t: Bytes)
    requires Sound(e)
    ensures var item := Trim([SEMICOLON] + (e.between + (e.name + (ValuePart(e) + t))));
      && item != [] && item[0] == SEMICOLON
      && Trim(item[1..]) == e.name + TrimEnd(ValuePart(e) + t)
      && Trim(TrimEnd(ValuePart(e) + t)) == Trim(ValuePart(e) + t)
  {
    hide Trim, TrimEnd, IsTchar, ValuePart;
    var behind := ValuePart(e) + t;
    var x := e.between + (e.name + behind);
    TrimBehind([SEMICOLON], x);
    var item := Trim([SEMICOLON] + x);
    assert item[1..] == TrimEnd(x);
    TrimPad(e.between, e.name + behind, []);
    assert e.between + (e.name + behind) + [] == x;
    TokenOuter(e.name);
    TrimBehind(e.name, behind);
  }

  lemma TokenOuter(name: Bytes)
    requires IsToken(name)
    ensures name != [] && !IsOws(name[0]) && !IsOws(name[|name| - 1])
  {
    TokenEnds(name);
  }

  /** The name ends where it ends, and a value is read whole. */
  lemma ValueRead(e: Extension, es: seq<Extension>, after: Bytes)
    requires Sound(e) && AllSound(es) && Blank(after)
    ensures var t := Render(es, after); var behind := ValuePart(e) + t;
      && TokenLen(e.name + TrimEnd(behind)) == |e.name| > 0
      && (e.value.Some? ==>
            var rest := Trim(behind);
            && rest != [] && rest[0] == EQUALS
            && Trim(rest[1..]) == e.value.value.text + TrimEnd(t)
            && ValueLen(e.value.value.text + TrimEnd(t)) == Some(|e.value.value.text|)
            && Trim(TrimEnd(t)) == Trim(t))
  {
    hide Trim, TrimEnd, ValueLen, IsTchar, IsQuoted, TokenLen;
    var t := Render(es, after);
    BehindIsNoToken(es, after);
    PrefixIsNoToken(t);
    if e.value.None? {
      assert ValuePart(e) + t == t;
      TokenLenOf(e.name, TrimEnd(t));
    } else {
      var Assigned(left, right, text) := e.value.value;
      var behind := ValuePart(e) + t;
      assert behind[0] == if left == [] then EQUALS else left[0];
      PrefixIsNoToken(behind);
      TokenLenOf(e.name, TrimEnd(behind));
      ValueLenOf(text, TrimEnd(t));
      TrimPad(left, [EQUALS] + (right + (text + t)), []);
      assert behind == left + ([EQUALS] + (right + (text + t))) + [];
      TrimBehind([EQUALS], right + (text + t));
      TrimPad(right, text + t, []);
      assert right + (text + t) + [] == right + (text + t);
      TrimBehind(text, t);
      assert Trim(behind)[1..] == TrimEnd(right + (text + t));
    }
  }

  /** Exactly which chunk extensions are accepted: those that the grammar writes. */
  lemma ExtensionGrammar(input: Bytes)
    requires input == [] || input[0] == SEMICOLON
    ensures ExtensionsOk(input) <==> exists es: seq<Extension>, after: Bytes :: Written(input, es, after)
  {
    hide ExtensionsOk, Sound;
    if ExtensionsOk(input) {
      var es, after := AcceptedIsWritten(input);
    } else if exists es: seq<Extension>, after: Bytes :: Written(input, es, after) {
      var es: seq<Extension>, after: Bytes :| Written(input, es, after);
      if es != [] {
        WrittenIsAccepted(es, after);
      } else {
        NoExtensions(input, after);
      }
    }
  }

  lemma NoExtensions(input: Bytes, after: Bytes)
    requires (input == [] || input[0] == SEMICOLON) && Written(input, [], after)
    ensures ExtensionsOk(input)
  {
    BlankStart(after);
  }

  lemma BlankStart(space: Bytes)
    requires Blank(space)
    ensures space != [] ==> space[0] != SEMICOLON
  {
  }
}
