/**
 The audit hash chain. SHA-256 (section 6.2 of FIPS 180-4) and JSON encoding of an event are parameters;
 the hexadecimal form and the chained payload are spelled out.
 */
module HashChain {
  import opened Basics
  import opened Text

  newtype Byte = b: int | 0 <= b < 256

  const HEX_DIGITS: string := "0123456789abcdef"

  function HexDigit(n: int): char
    requires 0 <= n < 16
  {
    HEX_DIGITS[n]
  }

  /** hex.EncodeToString. */
  function Hex(bytes: seq<Byte>): string {
    if bytes == [] then ""
    else
      var b := bytes[0] as int;
      [HexDigit(b / 16), HexDigit(b % 16)] + Hex(bytes[1..])
  }

  lemma HexDigitInjective(m: int, n: int)
    requires 0 <= m < 16 && 0 <= n < 16 && HexDigit(m) == HexDigit(n)
    ensures m == n
  {
  }

  lemma {:induction false} HexLength(bytes: seq<Byte>)
    ensures |Hex(bytes)| == 2 * |bytes|
    ensures forall i :: 0 <= i < |Hex(bytes)| ==> Hex(bytes)[i] != '"'
  {
    if bytes != [] { HexLength(bytes[1..]); }
  }

  lemma {:induction false} HexInjective(x: seq<Byte>, y: seq<Byte>)
    requires Hex(x) == Hex(y)
    ensures x == y
    decreases |x|
  {
    HexLength(x);
    HexLength(y);
    if x != [] {
      var a, b := x[0] as int, y[0] as int;
      assert Hex(x)[0] == HexDigit(a / 16) && Hex(y)[0] == HexDigit(b / 16);
      assert Hex(x)[1] == HexDigit(a % 16) && Hex(y)[1] == HexDigit(b % 16);
      HexDigitInjective(a / 16, b / 16);
      HexDigitInjective(a % 16, b % 16);
      assert Hex(x)[2..] == Hex(x[1..]) && Hex(y)[2..] == Hex(y[1..]);
      HexInjective(x[1..], y[1..]);
      assert x == [x[0]] + x[1..] && y == [y[0]] + y[1..];
    }
  }

  /** Two digits for each byte, the high half first. */
  lemma {:induction false} HexAt(bytes: seq<Byte>, i: nat)
    requires i < |bytes|
    ensures 2 * i + 1 < |Hex(bytes)|
    ensures 16 * DigitValue(Hex(bytes)[2 * i]) + DigitValue(Hex(bytes)[2 * i + 1]) == bytes[i] as int
    decreases bytes
  {
    if i > 0 {
      HexAt(bytes[1..], i - 1);
    } else {
      DigitsOfByte(bytes[0] as int);
    }
  }

  /** All of them lower-case hexadecimal digits. */
  lemma {:induction false} HexAlphabet(bytes: seq<Byte>)
    ensures forall i :: 0 <= i < |Hex(bytes)| ==> '0' <= Hex(bytes)[i] <= '9' || 'a' <= Hex(bytes)[i] <= 'f'
  {
    if bytes != [] {
      DigitsOfByte(bytes[0] as int);
      HexAlphabet(bytes[1..]);
    }
  }

  lemma DigitsOfByte(b: int)
    requires 0 <= b < 256
    ensures 16 * DigitValue(HexDigit(b / 16)) + DigitValue(HexDigit(b % 16)) == b
    ensures forall n :: 0 <= n < 16 ==> '0' <= HexDigit(n) <= '9' || 'a' <= HexDigit(n) <= 'f'
  {
    forall n | 0 <= n < 16 ensures DigitValue(HexDigit(n)) == n {}
  }

  ghost function DigitValue(c: char): int {
    if '0' <= c <= '9' then c as int - '0' as int else c as int - 'a' as int + 10
  }

  const BEFORE_HEAD := "{\"previous\":\""
  const AFTER_HEAD := "\",\"event\":"

  /** The JSON object that is hashed: the previous head and the event body. */
  function Payload(previous: string, body: string): string {
    BEFORE_HEAD + previous + AFTER_HEAD + body + "}"
  }

  ghost predicate QuoteFree(s: string) {
    forall i :: 0 <= i < |s| ==> s[i] != '"'
  }

  lemma HeadNotLonger(p: string, x: string, q: string, y: string)
    requires QuoteFree(p) && QuoteFree(q) && Payload(p, x) == Payload(q, y)
    ensures |q| <= |p|
  {
    assert Payload(p, x)[|BEFORE_HEAD| + |p|] == '"';
    assert forall i :: 0 <= i < |q| ==> Payload(q, y)[|BEFORE_HEAD| + i] == q[i];
  }

  /** A payload determines the head and the body it was built from. */
  lemma PayloadInjective(p: string, x: string, q: string, y: string)
    requires QuoteFree(p) && QuoteFree(q) && Payload(p, x) == Payload(q, y)
    ensures p == q && x == y
  {
    HeadNotLonger(p, x, q, y);
    HeadNotLonger(q, y, p, x);
    var k := |BEFORE_HEAD|;
    var n := k + |p| + |AFTER_HEAD|;
    assert Payload(p, x)[k..k + |p|] == p && Payload(q, y)[k..k + |q|] == q;
    assert Payload(p, x)[n..] == x + "}" && Payload(q, y)[n..] == y + "}";
    assert (x + "}")[..|x|] == x && (y + "}")[..|y|] == y;
  }

  /** The head after appending the bodies, oldest first; the empty chain has the empty head. */
  ghost function Head(digest: string -> seq<Byte>, bodies: seq<string>): string
    decreases |bodies|, 1
  {
    if bodies == [] then "" else Hex(digest(LastPayload(digest, bodies)))
  }

  /** The payload hashed when the last of the bodies was appended. */
  ghost function LastPayload(digest: string -> seq<Byte>, bodies: seq<string>): string
    requires bodies != []
    decreases |bodies|, 0
  {
    Payload(Head(digest, bodies[..|bodies| - 1]), bodies[|bodies| - 1])
  }

  /** A digest is never empty, so only the empty chain has the empty head. */
  lemma EmptyHead(digest: string -> seq<Byte>, bodies: seq<string>)
    requires forall p :: digest(p) != []
    ensures Head(digest, bodies) == "" <==> bodies == []
  {
    if bodies != [] { HexLength(digest(LastPayload(digest, bodies))); }
  }

  lemma HeadQuoteFree(digest: string -> seq<Byte>, bodies: seq<string>)
    ensures QuoteFree(Head(digest, bodies))
  {
    if bodies != [] { HexLength(digest(LastPayload(digest, bodies))); }
  }

  /**
   From two different histories with the same head, two different payloads with the same digest: one that
   was hashed while building each history. The lengths of the histories need not agree.
   */
  lemma {:induction false} FindCollision(digest: string -> seq<Byte>, a: seq<string>, b: seq<string>)
    returns (i: nat, j: nat)
    requires forall p :: digest(p) != []
    requires a != b && Head(digest, a) == Head(digest, b)
    ensures 0 < i <= |a| && 0 < j <= |b|
    ensures LastPayload(digest, a[..i]) != LastPayload(digest, b[..j])
    ensures digest(LastPayload(digest, a[..i])) == digest(LastPayload(digest, b[..j]))
    decreases |a|
  {
    EmptyHead(digest, a);
    EmptyHead(digest, b);
    HexInjective(digest(LastPayload(digest, a)), digest(LastPayload(digest, b)));
    assert a[..|a|] == a && b[..|b|] == b;
    if LastPayload(digest, a) != LastPayload(digest, b) {
      return |a|, |b|;
    }
    var a', b' := a[..|a| - 1], b[..|b| - 1];
    HeadQuoteFree(digest, a');
    HeadQuoteFree(digest, b');
    PayloadInjective(Head(digest, a'), a[|a| - 1], Head(digest, b'), b[|b| - 1]);
    assert a == a' + [a[|a| - 1]] && b == b' + [b[|b| - 1]];
    i, j := FindCollision(digest, a', b');
    assert a[..i] == a'[..i] && b[..j] == b'[..j];
  }

  /** Unless payloads of the two histories themselves collide, equal heads mean equal histories. */
  lemma HeadCommits(digest: string -> seq<Byte>, a: seq<string>, b: seq<string>)
    requires forall p :: digest(p) != []
    requires forall i, j {:trigger a[..i], b[..j]} :: 0 < i <= |a| && 0 < j <= |b|
               && digest(LastPayload(digest, a[..i])) == digest(LastPayload(digest, b[..j]))
               ==> LastPayload(digest, a[..i]) == LastPayload(digest, b[..j])
    ensures Head(digest, a) == Head(digest, b) <==> a == b
  {
    if a != b && Head(digest, a) == Head(digest, b) {
      var i, j := FindCollision(digest, a, b);
    }
  }

  // ---------- the chain itself ----------

  datatype Event = Event(
    requestId: string, operator: Option<string>, objectType: string, objectId: string, action: string,
    outcome: string, detail: Option<map<string, string>>, createdAt: Time)
  {
    predicate Valid() {
      !Blank(requestId) && !Blank(objectType) && !Blank(objectId) && !Blank(action) && !Blank(outcome)
    }

    /** A nil detail is encoded as an empty one. */
    function Completed(): Event {
      if detail.None? then this.(detail := Some(map[])) else this
    }
  }

  /** What is encoded: the event, with an empty detail when it has none. */
  ghost function WithDetail(event: Event): Event {
    Event(event.requestId, event.operator, event.objectType, event.objectId, event.action, event.outcome,
          Some(if event.detail.Some? then event.detail.value else map[]), event.createdAt)
  }

  /** Some character is not white space. */
  ghost predicate NonBlank(s: string) {
    exists k :: 0 <= k < |s| && !IsSpace(s[k])
  }

  class Chain {
    const digest: string -> seq<Byte>
    /** json.Marshal of an event; None when the event cannot be encoded. */
    const marshal: Event -> Option<string>
    var previous: string
    ghost var bodies: seq<string>

    /** The head is the one of the accepted bodies. */
    ghost predicate Valid()
      reads this
    {
      previous == Head(digest, bodies)
    }

    constructor (digest: string -> seq<Byte>, marshal: Event -> Option<string>)
      ensures Valid() && bodies == [] && this.digest == digest && this.marshal == marshal
    {
      this.digest, this.marshal, previous, bodies := digest, marshal, "", [];
    }

    /** Extends the chain by the event's body, or refuses the event and leaves head and history alone. */
    method Append(event: Event) returns (head: Option<string>)
      requires Valid()
      modifies this
      ensures Valid()
      ensures head.Some? <==>
                && NonBlank(event.requestId) && NonBlank(event.objectType) && NonBlank(event.objectId)
                && NonBlank(event.action) && NonBlank(event.outcome) && marshal(WithDetail(event)).Some?
      ensures head.Some? ==>
                var body := marshal(WithDetail(event)).value;
                && bodies == old(bodies) + [body] && head.value == previous
                && previous == Hex(digest("{\"previous\":\"" + old(previous) + "\",\"event\":" + body + "}"))
      ensures head.None? ==> bodies == old(bodies) && previous == old(previous)
    {
      BlankExactly(event.requestId);
      BlankExactly(event.objectType);
      BlankExactly(event.objectId);
      BlankExactly(event.action);
      BlankExactly(event.outcome);
      if !event.Valid() {
        return None;
      }
      var body := marshal(event.Completed());
      if body.None? {
        return None;
      }
      var payload := Payload(previous, body.value);
      previous := Hex(digest(payload));
      bodies := bodies + [body.value];
      assert bodies[..|bodies| - 1] == old(bodies);
      return Some(previous);
    }
  }
}
