/**
 The keys of the media transfer tables: InboundTransferKey::uiTransferId
 (src/core/meeting_session_runtime.h) and MediaCompletionId (src/core/meeting_coordinator.cpp).
 Text is a sequence of Unicode scalar values.
 */
module MediaKeys {
  import Utf8

  datatype ParticipantKey = ParticipantKey(generation: nat, incarnation: nat, sid: string, identity: string)

  /** InboundTransferKey */
  datatype Key = Key(session: nat, generation: nat, incarnation: nat, revision: nat, wireId: string)

  // ----- Decimal numbers -----

  function Digit(d: nat): char
    requires d < 10
  {
    "0123456789"[d]
  }

  /** QString::number */
  function Decimal(n: nat): (s: string)
    ensures s != []
  {
    if n < 10 then [Digit(n)] else Decimal(n / 10) + [Digit(n % 10)]
  }

  lemma {:induction false} DecimalHasNoColon(n: nat)
    ensures ':' !in Decimal(n)
  {
    if n >= 10 {
      DecimalHasNoColon(n / 10);
    }
  }

  lemma {:induction false} DecimalInjective(a: nat, b: nat)
    requires Decimal(a) == Decimal(b)
    ensures a == b
  {
    var s, t := Decimal(a), Decimal(b);
    assert s[|s| - 1] == Digit(a % 10) && t[|t| - 1] == Digit(b % 10);
    if a >= 10 && b >= 10 {
      assert Decimal(a / 10) == s[..|s| - 1] && Decimal(b / 10) == t[..|t| - 1];
      DecimalInjective(a / 10, b / 10);
    }
  }

  /** A decimal field ends at its colon. */
  lemma FieldUnique(a: nat, b: nat, x: string, y: string)
    requires Decimal(a) + ":" + x == Decimal(b) + ":" + y
    ensures a == b && x == y
  {
    var s, t := Decimal(a) + ":" + x, Decimal(b) + ":" + y;
    DecimalHasNoColon(a);
    DecimalHasNoColon(b);
    var m, n := |Decimal(a)|, |Decimal(b)|;
    assert s[m] == ':' && forall i :: 0 <= i < m ==> s[i] == Decimal(a)[i] != ':';
    assert t[n] == ':' && forall i :: 0 <= i < n ==> t[i] == Decimal(b)[i] != ':';
    assert m == n;
    assert Decimal(a) == s[..m] && Decimal(b) == t[..n];
    DecimalInjective(a, b);
    assert x == s[m + 1..] && y == t[n + 1..];
  }

  // ----- Lengths in code units -----

  /** The size of a std::string that holds the UTF-8 form of a text. */
  function Utf8Size(s: string): nat {
    if s == [] then 0 else Utf8Width(s[0]) + Utf8Size(s[1..])
  }

  function Utf8Width(c: char): nat {
    if c as int < 0x80 then 1 else if c as int < 0x800 then 2 else if c as int < 0x10000 then 3 else 4
  }

  /** QString::size, in UTF-16 units. */
  function Utf16Size(s: string): nat {
    if s == [] then 0 else (if s[0] as int < 0x10000 then 1 else 2) + Utf16Size(s[1..])
  }

  /** The code points of a text. */
  function Codes(s: string): seq<Utf8.Scalar> {
    seq(|s|, i requires 0 <= i < |s| => s[i] as int)
  }

  /** It is the length of the encoding. */
  lemma {:induction false} Utf8Meaning(s: string)
    ensures Utf8Size(s) == |Utf8.EncodeAll(Codes(s))|
  {
    if s != [] {
      Utf8Meaning(s[1..]);
      assert Codes(s)[1..] == Codes(s[1..]);
    }
  }

  predicate InBasicPlane(c: char) {
    c as int < 0x10000
  }

  /** One unit for each character of the basic plane, and two for each beyond it. */
  lemma {:induction false} Utf16Meaning(s: string)
    ensures |s| <= Utf16Size(s) <= 2 * |s|
    ensures Utf16Size(s) == |s| <==> forall i :: 0 <= i < |s| ==> InBasicPlane(s[i])
    ensures Utf16Size(s) == 2 * |s| <==> forall i :: 0 <= i < |s| ==> !InBasicPlane(s[i])
  {
    if s != [] {
      var rest := s[1..];
      Utf16Meaning(rest);
      assert forall i :: 1 <= i < |s| ==> s[i] == rest[i - 1];
      assert forall i :: 0 <= i < |rest| ==> rest[i] == s[i + 1];
    }
  }

  lemma {:induction false} Utf8SizeSplit(s: string, t: string)
    ensures Utf8Size(s + t) == Utf8Size(s) + Utf8Size(t)
  {
    if s == [] {
      assert s + t == t;
    } else {
      assert (s + t)[1..] == s[1..] + t;
      Utf8SizeSplit(s[1..], t);
    }
  }

  /** Two texts of the same UTF-8 size at the start of one string are the same. */
  lemma TextUnique(a: string, b: string, x: string, y: string)
    requires Utf8Size(a) == Utf8Size(b) && a + x == b + y
    ensures a == b && x == y
    decreases |a| > |b|
  {
    if |a| > |b| {
      TextUnique(b, a, y, x);
    } else {
      assert a == (a + x)[..|a|] == b[..|a|];
      assert b == a + b[|a|..];
      Utf8SizeSplit(a, b[|a|..]);
      assert b[|a|..] == [];
      assert x == (a + x)[|a|..] && y == (b + y)[|b|..];
    }
  }

  // ----- The two identifiers -----

  function UiTransferId(k: Key): string {
    Decimal(k.session) + ":" + (Decimal(k.generation) + ":" + (Decimal(k.incarnation) + ":" +
    (Decimal(k.revision) + ":" + (Decimal(Utf16Size(k.wireId)) + ":" + k.wireId))))
  }

  function CompletionId(sender: ParticipantKey, revision: nat, wireId: string): string {
    Decimal(sender.generation) + ":" + (Decimal(sender.incarnation) + ":" +
    (Decimal(Utf8Size(sender.sid)) + ":" + (sender.sid + (":" +
    (Decimal(Utf8Size(sender.identity)) + ":" + (sender.identity + (":" + (Decimal(revision) + ":" + wireId))))))))
  }

  /** Different transfers never share a presentation id. */
  lemma UiTransferIdInjective(k: Key, l: Key)
    requires UiTransferId(k) == UiTransferId(l)
    ensures k == l
  {
    var k5, l5 := Decimal(Utf16Size(k.wireId)) + ":" + k.wireId, Decimal(Utf16Size(l.wireId)) + ":" + l.wireId;
    var k4, l4 := Decimal(k.revision) + ":" + k5, Decimal(l.revision) + ":" + l5;
    var k3, l3 := Decimal(k.incarnation) + ":" + k4, Decimal(l.incarnation) + ":" + l4;
    var k2, l2 := Decimal(k.generation) + ":" + k3, Decimal(l.generation) + ":" + l3;
    FieldUnique(k.session, l.session, k2, l2);
    FieldUnique(k.generation, l.generation, k3, l3);
    FieldUnique(k.incarnation, l.incarnation, k4, l4);
    FieldUnique(k.revision, l.revision, k5, l5);
    FieldUnique(Utf16Size(k.wireId), Utf16Size(l.wireId), k.wireId, l.wireId);
  }

  /** Different senders, revisions or transfers never share a terminal record. */
  lemma CompletionIdInjective(a: ParticipantKey, r: nat, x: string, b: ParticipantKey, q: nat, y: string)
    requires CompletionId(a, r, x) == CompletionId(b, q, y)
    ensures a == b && r == q && x == y
  {
    var a6, b6 := Decimal(r) + ":" + x, Decimal(q) + ":" + y;
    var a5, b5 := a.identity + (":" + a6), b.identity + (":" + b6);
    var a4, b4 := Decimal(Utf8Size(a.identity)) + ":" + a5, Decimal(Utf8Size(b.identity)) + ":" + b5;
    var a3, b3 := a.sid + (":" + a4), b.sid + (":" + b4);
    var a2, b2 := Decimal(Utf8Size(a.sid)) + ":" + a3, Decimal(Utf8Size(b.sid)) + ":" + b3;
    var a1, b1 := Decimal(a.incarnation) + ":" + a2, Decimal(b.incarnation) + ":" + b2;
    FieldUnique(a.generation, b.generation, a1, b1);
    FieldUnique(a.incarnation, b.incarnation, a2, b2);
    FieldUnique(Utf8Size(a.sid), Utf8Size(b.sid), a3, b3);
    TextUnique(a.sid, b.sid, ":" + a4, ":" + b4);
    assert a4 == (":" + a4)[1..] && b4 == (":" + b4)[1..];
    FieldUnique(Utf8Size(a.identity), Utf8Size(b.identity), a5, b5);
    TextUnique(a.identity, b.identity, ":" + a6, ":" + b6);
    assert a6 == (":" + a6)[1..] && b6 == (":" + b6)[1..];
    FieldUnique(r, q, x, y);
  }
}
