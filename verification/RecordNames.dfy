/** File names for records: one run ID, one name. Source: agent/handoff_records.go. */
module RecordNames {

  type Byte = b: int | 0 <= b < 256

  type RunId = seq<Byte>

  const MAX_RECORD_COMPONENT_BYTES: nat := 96
  const PERCENT: Byte := 37
  const TILDE: Byte := 126
  const RUN: seq<Byte> := [114, 117, 110]
  const JSON: seq<Byte> := [46, 106, 115, 111, 110]

  /** Letters, digits, "-" and "_". */
  predicate Plain(b: Byte) {
    97 <= b <= 122 || 65 <= b <= 90 || 48 <= b <= 57 || b == 45 || b == 95
  }

  function HexDigit(d: int, ten: int): Byte
    requires 0 <= d < 16 && (ten == 65 || ten == 97)
  {
    if d < 10 then 48 + d else ten + d - 10
  }

  function UpperHex(b: Byte): seq<Byte> {
    [HexDigit(b / 16, 65), HexDigit(b % 16, 65)]
  }

  function Piece(b: Byte): seq<Byte> {
    if Plain(b) then [b] else [PERCENT] + UpperHex(b)
  }

  /** Every byte's piece, in order. */
  function Escape(id: RunId): seq<Byte> {
    if id == [] then [] else Piece(id[0]) + Escape(id[1..])
  }

  lemma {:induction false} EscapeAppend(a: RunId, b: RunId)
    ensures Escape(a + b) == Escape(a) + Escape(b)
    decreases |a|
  {
    if a == [] {
      assert a + b == b;
    } else {
      assert (a + b)[1..] == a[1..] + b;
      EscapeAppend(a[1..], b);
    }
  }

  /** Escapes into at most `limit` bytes and says whether the whole ID fit. What does
      not fit is cut between two bytes of the ID, never inside an escape. */
  method EscapedRecordName(id: RunId, limit: nat) returns (escaped: seq<Byte>, complete: bool)
    ensures complete <==> |Escape(id)| <= limit
    ensures complete ==> escaped == Escape(id)
    ensures |escaped| <= limit && exists k :: 0 <= k <= |id| && escaped == Escape(id[..k])
    ensures limit >= 3 && id != [] ==> escaped != []
  {
    escaped := [];
    assert id[..0] == [];
    for i := 0 to |id|
      invariant escaped == Escape(id[..i]) && |escaped| <= limit
      invariant i > 0 ==> escaped != []
    {
      assert id[..i + 1] == id[..i] + [id[i]] && [id[i]][1..] == [];
      EscapeAppend(id[..i], [id[i]]);
      assert id == id[..i + 1] + id[i + 1..];
      EscapeAppend(id[..i + 1], id[i + 1..]);
      if |escaped| + |Piece(id[i])| > limit {
        return escaped, false;
      }
      escaped := escaped + Piece(id[i]);
    }
    assert id[..|id|] == id;
    complete := true;
  }

  // ----- Escaping is undone by a decoder -----

  function Value(digit: Byte): int {
    if 48 <= digit <= 57 then digit - 48 else if 65 <= digit <= 70 then digit - 55 else 0
  }

  function Decode(s: seq<Byte>): RunId {
    if s == [] then []
    else if s[0] == PERCENT && |s| >= 3 then [(16 * Value(s[1]) + Value(s[2])) % 256] + Decode(s[3..])
    else [s[0]] + Decode(s[1..])
  }

  lemma PieceDecodes(b: Byte, rest: seq<Byte>)
    ensures Decode(Piece(b) + rest) == [b] + Decode(rest)
  {
    var s := Piece(b) + rest;
    if Plain(b) {
      assert s[0] == b && s[1..] == rest;
    } else {
      assert s[0] == PERCENT && s[1] == HexDigit(b / 16, 65) && s[2] == HexDigit(b % 16, 65) && s[3..] == rest;
      assert Value(s[1]) == b / 16 && Value(s[2]) == b % 16;
    }
  }

  lemma {:induction false} EscapeRoundTrips(id: RunId)
    ensures Decode(Escape(id)) == id
    decreases |id|
  {
    if id != [] {
      EscapeRoundTrips(id[1..]);
      PieceDecodes(id[0], Escape(id[1..]));
      assert id == [id[0]] + id[1..];
    }
  }

  /** An ordinary ID is its own name, so an upgraded node finds its old records. */
  lemma {:induction false} OrdinaryNamesAreKept(id: RunId)
    requires forall i :: 0 <= i < |id| ==> Plain(id[i])
    ensures Escape(id) == id
    decreases |id|
  {
    if id != [] {
      OrdinaryNamesAreKept(id[1..]);
      assert id == [id[0]] + id[1..];
    }
  }

  lemma {:induction false} LiteralNamesHaveNoTilde(id: RunId)
    ensures TILDE !in Escape(id)
    decreases |id|
  {
    if id != [] {
      LiteralNamesHaveNoTilde(id[1..]);
      assert TILDE !in Piece(id[0]);
    }
  }

  // ----- Names -----

  function LowerHex(bytes: seq<Byte>): seq<Byte> {
    if bytes == [] then [] else [HexDigit(bytes[0] / 16, 97), HexDigit(bytes[0] % 16, 97)] + LowerHex(bytes[1..])
  }

  lemma {:induction false} LowerHexIsInjective(a: seq<Byte>, b: seq<Byte>)
    ensures LowerHex(a) == LowerHex(b) ==> a == b
    decreases |a|
  {
    if LowerHex(a) == LowerHex(b) && a != [] {
      var x, y := LowerHex(a), LowerHex(b);
      assert b != [];
      assert x[0] == y[0] && x[1] == y[1] && x[2..] == LowerHex(a[1..]) && y[2..] == LowerHex(b[1..]);
      LowerHexIsInjective(a[1..], b[1..]);
      assert a[0] == 16 * (a[0] / 16) + a[0] % 16 && b[0] == 16 * (b[0] / 16) + b[0] % 16;
      assert a == [a[0]] + a[1..] && b == [b[0]] + b[1..];
    }
  }

  /** The name without its extension. */
  function Stem(id: RunId, digest: RunId -> seq<Byte>): seq<Byte> {
    if id == [] then RUN
    else if |Escape(id)| <= MAX_RECORD_COMPONENT_BYTES then Escape(id)
    else [TILDE] + LowerHex(digest(id))
  }

  method RecordComponent(id: RunId, digest: RunId -> seq<Byte>) returns (name: seq<Byte>)
    ensures name == Stem(id, digest) + JSON
  {
    var escaped, complete := EscapedRecordName(id, MAX_RECORD_COMPONENT_BYTES);
    if escaped == [] {
      return RUN + JSON;
    }
    if complete {
      return escaped + JSON;
    }
    return [TILDE] + LowerHex(digest(id)) + JSON;
  }

  /** A digest name and a literal one never meet. */
  lemma NamespacesAreDisjoint(a: RunId, b: RunId, digest: RunId -> seq<Byte>)
    requires a != [] && b != [] && |Escape(a)| <= MAX_RECORD_COMPONENT_BYTES < |Escape(b)|
    ensures Stem(a, digest) != Stem(b, digest)
  {
    LiteralNamesHaveNoTilde(a);
    assert Stem(b, digest)[0] == TILDE;
  }

  /** Given a digest that tells the two apart, two run IDs share a file name exactly
      when one is empty and the other is "run". */
  lemma NamesCollideOnlyOnTheEmptyId(a: RunId, b: RunId, digest: RunId -> seq<Byte>)
    requires a != b && digest(a) != digest(b)
    ensures Stem(a, digest) + JSON == Stem(b, digest) + JSON <==> (a == [] && b == RUN) || (a == RUN && b == [])
  {
    assert (Stem(a, digest) + JSON)[..|Stem(a, digest)|] == Stem(a, digest);
    assert (Stem(b, digest) + JSON)[..|Stem(b, digest)|] == Stem(b, digest);
    OrdinaryNamesAreKept(RUN);
    EscapeRoundTrips(a);
    EscapeRoundTrips(b);
    EscapeRoundTrips(RUN);
    LiteralNamesHaveNoTilde(a);
    LiteralNamesHaveNoTilde(b);
    LowerHexIsInjective(digest(a), digest(b));
    var x, y := [TILDE] + LowerHex(digest(a)), [TILDE] + LowerHex(digest(b));
    assert x[0] == TILDE && y[0] == TILDE && x[1..] == LowerHex(digest(a)) && y[1..] == LowerHex(digest(b));
    assert RUN[0] != TILDE;
  }
}
