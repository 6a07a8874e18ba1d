/** Octets, small result types and the header multimap shared by every component. */
module Prelude {

  type Byte = b: int | 0 <= b < 256
  type Bytes = seq<Byte>

  const U64_LIMIT: nat := 0x1_0000_0000_0000_0000

  const HT: Byte := 9
  const LF: Byte := 10
  const CR: Byte := 13
  const SP: Byte := 32
  const DQUOTE: Byte := 34
  const COMMA: Byte := 44
  const DASH: Byte := 45
  const COLON: Byte := 58
  const SEMICOLON: Byte := 59
  const EQUALS: Byte := 61
  const BACKSLASH: Byte := 92
  const ZERO: Byte := 48
  const DEL: Byte := 127

  const CRLF: Bytes := [CR, LF]

  datatype Option<+T> = None | Some(value: T)

  datatype Result<+T, +E> = Ok(value: T) | Err(error: E)

  /** The field names the engine itself inspects; every other name is kept as text. */
  datatype Name =
    | ContentLength | TransferEncoding | Host | Connection | Expect | Upgrade
    | Trailer | Te | Authorization | ProxyAuthorization | ProxyAuthenticate
    | WwwAuthenticate | ContentEncoding | ContentType | ContentRange
    | Other(text: Bytes)

  datatype Field = Field(name: Name, value: Bytes)

  /** An ordered multimap: several fields may share a name, and their order is kept. */
  type HeaderMap = seq<Field>

  /** All values of one name, in order. */
  function GetAll(headers: HeaderMap, name: Name): (values: seq<Bytes>)
  {
    if headers == [] then []
    else if headers[0].name == name then [headers[0].value] + GetAll(headers[1..], name)
    else GetAll(headers[1..], name)
  }

  function Without(headers: HeaderMap, name: Name): (rest: HeaderMap)
  {
    if headers == [] then []
    else if headers[0].name == name then Without(headers[1..], name)
    else [headers[0]] + Without(headers[1..], name)
  }

  /** Replace every value of a name by one value. */
  function Insert(headers: HeaderMap, name: Name, value: Bytes): (result: HeaderMap)
  {
    Without(headers, name) + [Field(name, value)]
  }

  lemma {:induction false} GetAllAppend(a: HeaderMap, b: HeaderMap, name: Name)
    ensures GetAll(a + b, name) == GetAll(a, name) + GetAll(b, name)
  {
    if a == [] {
      assert a + b == b;
    } else {
      GetAllAppend(a[1..], b, name);
      assert (a + b)[1..] == a[1..] + b;
    }
  }

  lemma {:induction false} GetAllWithout(headers: HeaderMap, removed: Name, name: Name)
    ensures GetAll(Without(headers, removed), name) == if name == removed then [] else GetAll(headers, name)
  {
    if headers != [] {
      GetAllWithout(headers[1..], removed, name);
      if headers[0].name != removed {
        GetAllAppend([headers[0]], Without(headers[1..], removed), name);
      }
    }
  }

  /** Insertion leaves exactly one value under its name and no other name touched. */
  lemma GetAllInsert(headers: HeaderMap, inserted: Name, value: Bytes, name: Name)
    ensures GetAll(Insert(headers, inserted, value), name)
         == if name == inserted then [value] else GetAll(headers, name)
  {
    GetAllAppend(Without(headers, inserted), [Field(inserted, value)], name);
    GetAllWithout(headers, inserted, name);
  }

  lemma Assoc(a: Bytes, b: Bytes, c: Bytes)
    ensures a + b + c == a + (b + c)
  {
  }

  /** Pieces back to back. */
  function Join(pieces: seq<Bytes>): Bytes
  {
    if pieces == [] then [] else pieces[0] + Join(pieces[1..])
  }

  lemma JoinNothing()
    ensures Join([]) == []
  {
  }

  lemma {:induction false} JoinSplit(pieces: seq<Bytes>, k: nat)
    requires k <= |pieces|
    ensures Join(pieces) == Join(pieces[..k]) + Join(pieces[k..])
  {
    if k == 0 {
      assert pieces[0..] == pieces;
    } else {
      JoinSplit(pieces[1..], k - 1);
      assert pieces[1..][..k - 1] == pieces[..k][1..] && pieces[1..][k - 1..] == pieces[k..];
      Assoc(pieces[0], Join(pieces[..k][1..]), Join(pieces[k..]));
    }
  }

  lemma JoinPush(pieces: seq<Bytes>, piece: Bytes)
    ensures Join(pieces + [piece]) == Join(pieces) + piece
  {
    JoinTake(pieces + [piece], |pieces|);
    assert (pieces + [piece])[..|pieces|] == pieces && (pieces + [piece])[..|pieces| + 1] == pieces + [piece];
  }

  lemma JoinTake(pieces: seq<Bytes>, k: nat)
    requires k < |pieces|
    ensures Join(pieces[..k + 1]) == Join(pieces[..k]) + pieces[k]
  {
    JoinSplit(pieces[..k + 1], k);
    assert pieces[..k + 1][..k] == pieces[..k] && pieces[..k + 1][k..] == [pieces[k]];
    assert Join([pieces[k]]) == pieces[k] + Join([]);
  }
}
