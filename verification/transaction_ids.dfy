/**
 Transaction ids: the text of a random UUID with every `-` removed.
 The UUID itself comes from the environment; this module states what the
 removal does to any text and, for the canonical 8-4-4-4-12 UUID form, that
 the id is the 32 hex digits in their original order.
 */
module TransactionIds {

  /** `s` with every `-` removed, the other characters kept in order. */
  function StripDashes(s: string): (r: string)
    ensures '-' !in r
    ensures |r| <= |s|
    ensures forall c :: c in r ==> c in s
    ensures forall c :: c in s && c != '-' ==> c in r
  {
    if |s| == 0 then ""
    else if s[0] == '-' then StripDashes(s[1..])
    else [s[0]] + StripDashes(s[1..])
  }

  /** Text without a dash is its own id. */
  lemma {:induction false} StripDashesOfDashFree(s: string)
    requires '-' !in s
    ensures StripDashes(s) == s
  {
    if |s| > 0 {
      assert '-' !in s[1..] by {
        forall i | 0 <= i < |s[1..]| ensures s[1..][i] != '-' {
          assert s[1..][i] == s[i + 1];
        }
      }
      StripDashesOfDashFree(s[1..]);
      assert s == [s[0]] + s[1..];
    }
  }

  /** Removal works piecewise: the id of a concatenation is the concatenation of the ids. */
  lemma {:induction false} StripDashesAppend(a: string, b: string)
    ensures StripDashes(a + b) == StripDashes(a) + StripDashes(b)
  {
    if |a| == 0 {
      assert a + b == b;
    } else {
      assert (a + b)[0] == a[0];
      assert (a + b)[1..] == a[1..] + b;
      StripDashesAppend(a[1..], b);
    }
  }

  /** Removing dashes a second time changes nothing. */
  lemma StripDashesIdempotent(s: string)
    ensures StripDashes(StripDashes(s)) == StripDashes(s)
  {
  }

  predicate IsHexDigit(c: char)
  {
    '0' <= c <= '9' || 'a' <= c <= 'f' || 'A' <= c <= 'F'
  }

  predicate AllHex(s: string)
  {
    forall i :: 0 <= i < |s| ==> IsHexDigit(s[i])
  }

  /** The canonical text of a UUID: 36 characters, dashes at 8, 13, 18 and 23, hex digits elsewhere. */
  predicate CanonicalUuid(s: string)
  {
    && |s| == 36
    && s[8] == '-' && s[13] == '-' && s[18] == '-' && s[23] == '-'
    && AllHex(s[..8]) && AllHex(s[9..13]) && AllHex(s[14..18])
    && AllHex(s[19..23]) && AllHex(s[24..])
  }

  lemma HexIsDashFree(s: string)
    requires AllHex(s)
    ensures '-' !in s
  {
  }

  /** Cutting `s[..j]` at a dash at position `i` splits its id in two. */
  lemma StripAtDash(s: string, i: nat, j: nat)
    requires i < j <= |s| && s[i] == '-'
    ensures StripDashes(s[..j]) == StripDashes(s[..i]) + StripDashes(s[i + 1..j])
  {
    assert s[..j] == s[..i] + ([s[i]] + s[i + 1..j]);
    StripDashesAppend(s[..i], [s[i]] + s[i + 1..j]);
    assert ([s[i]] + s[i + 1..j])[1..] == s[i + 1..j];
  }

  lemma HexGroup(s: string, i: nat, j: nat)
    requires i <= j <= |s| && AllHex(s[i..j])
    ensures StripDashes(s[i..j]) == s[i..j]
  {
    HexIsDashFree(s[i..j]);
    StripDashesOfDashFree(s[i..j]);
  }

  lemma AllHexAppend(a: string, b: string)
    requires AllHex(a) && AllHex(b)
    ensures AllHex(a + b)
  {
  }

  /**
   The id made from a canonical UUID is its five hex groups joined: 32 hex
   digits, no dash.
   */
  lemma StripCanonicalUuid(s: string)
    requires CanonicalUuid(s)
    ensures StripDashes(s) == s[..8] + s[9..13] + s[14..18] + s[19..23] + s[24..]
    ensures |StripDashes(s)| == 32
    ensures AllHex(StripDashes(s))
  {
    assert s == s[..36];
    StripAtDash(s, 23, 36);
    StripAtDash(s, 18, 23);
    StripAtDash(s, 13, 18);
    StripAtDash(s, 8, 13);
    assert s[..8] == s[0..8];
    HexGroup(s, 0, 8);
    HexGroup(s, 9, 13);
    HexGroup(s, 14, 18);
    HexGroup(s, 19, 23);
    HexGroup(s, 24, 36);
    assert s[..18][..13] == s[..13];
    AllHexAppend(s[..8], s[9..13]);
    AllHexAppend(s[..8] + s[9..13], s[14..18]);
    AllHexAppend(s[..8] + s[9..13] + s[14..18], s[19..23]);
    AllHexAppend(s[..8] + s[9..13] + s[14..18] + s[19..23], s[24..]);
  }

  /** The id made from any UUID text: 32 hex digits whenever the text is canonical. */
  lemma IdOfUuid(s: string)
    ensures CanonicalUuid(s) ==> |StripDashes(s)| == 32 && AllHex(StripDashes(s))
  {
    if CanonicalUuid(s) {
      StripCanonicalUuid(s);
    }
  }
}
