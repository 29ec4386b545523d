/** The file names of covers: an escaped anime id, a dash and the token of the image it holds. */
module CoverNames {
  import opened Basics

  /** A UTF-16 code unit. */
  newtype Unit = n: int | 0 <= n < 0x1_0000

  type Name = seq<Unit>

  const UNDERSCORE: Unit := 0x5F
  const DASH: Unit := 0x2D
  const QUOTE: Unit := 0x22
  const JPG: Name := [0x2E, 0x6A, 0x70, 0x67]
  const ETAG_TOKEN_LENGTH := 16

  predicate IsDigit(unit: Unit) { 0x30 <= unit <= 0x39 }

  /** `[A-Za-z0-9-]`. */
  predicate PassesThrough(unit: Unit) {
    0x41 <= unit <= 0x5A || 0x61 <= unit <= 0x7A || IsDigit(unit) || unit == DASH
  }

  function HexDigit(value: nat): Unit
    requires value < 16
  {
    if value < 10 then (0x30 + value) as Unit else (0x61 + value - 10) as Unit
  }

  function HexValue(digit: Unit): (value: nat)
    ensures value < 16
  {
    if IsDigit(digit) then (digit - 0x30) as nat
    else if 0x61 <= digit <= 0x66 then (digit - 0x61) as nat + 10
    else 0
  }

  /** `_` and exactly four lowercase hex digits. */
  function Escape(unit: Unit): Name {
    var value := unit as nat;
    [UNDERSCORE, HexDigit(value / 0x1000), HexDigit(value / 0x100 % 16), HexDigit(value / 16 % 16), HexDigit(value % 16)]
  }

  function SanitizeUnit(unit: Unit): Name { if PassesThrough(unit) then [unit] else Escape(unit) }

  function Sanitize(animeId: Name): Name {
    if animeId == [] then [] else SanitizeUnit(animeId[0]) + Sanitize(animeId[1..])
  }

  method SanitizeAnimeIdForFileName(animeId: Name) returns (sanitized: Name)
    ensures sanitized == Sanitize(animeId)
  {
    sanitized := [];
    for i := 0 to |animeId|
      invariant sanitized == Sanitize(animeId[..i])
    {
      assert animeId[..i + 1] == animeId[..i] + [animeId[i]];
      SanitizeConcat(animeId[..i], [animeId[i]]);
      assert Sanitize([animeId[i]]) == SanitizeUnit(animeId[i]) + Sanitize([]);
      sanitized := sanitized + SanitizeUnit(animeId[i]);
    }
    assert animeId[..|animeId|] == animeId;
  }

  lemma {:induction false} SanitizeConcat(a: Name, b: Name)
    ensures Sanitize(a + b) == Sanitize(a) + Sanitize(b)
  {
    if a == [] {
      assert a + b == b;
    } else {
      assert (a + b)[0] == a[0] && (a + b)[1..] == a[1..] + b;
      SanitizeConcat(a[1..], b);
    }
  }

  // ----- Reading a name back -----

  function Unescape(digits: Name): Unit
    requires |digits| == 4
  {
    (HexValue(digits[0]) * 0x1000 + HexValue(digits[1]) * 0x100 + HexValue(digits[2]) * 16 + HexValue(digits[3])) as Unit
  }

  /** The id an escaped name stands for. */
  function Unsanitize(name: Name): Name {
    if name == [] then []
    else if name[0] == UNDERSCORE && |name| >= 5 then [Unescape(name[1..5])] + Unsanitize(name[5..])
    else [name[0]] + Unsanitize(name[1..])
  }

  lemma HexRoundTrip(value: nat)
    requires value < 16
    ensures HexValue(HexDigit(value)) == value
  {
  }

  lemma HexDigitsAddUp(value: nat)
    requires value < 0x1_0000
    ensures value / 0x1000 * 0x1000 + value / 0x100 % 16 * 0x100 + value / 16 % 16 * 16 + value % 16 == value
  {
    assert value / 0x100 == value / 16 / 16;
    assert value / 0x1000 == value / 0x100 / 16;
  }

  lemma EscapeRoundTrip(unit: Unit)
    ensures Unescape(Escape(unit)[1..5]) == unit
  {
    var value := unit as nat;
    HexRoundTrip(value / 0x1000);
    HexRoundTrip(value / 0x100 % 16);
    HexRoundTrip(value / 16 % 16);
    HexRoundTrip(value % 16);
    HexDigitsAddUp(value);
    hide HexValue, HexDigit;
  }

  /** Sanitizing an id has a left inverse: no two ids share an escaped name. */
  lemma {:induction false} SanitizingCanBeUndone(animeId: Name)
    ensures Unsanitize(Sanitize(animeId)) == animeId
  {
    if animeId != [] {
      var head, rest := SanitizeUnit(animeId[0]), Sanitize(animeId[1..]);
      SanitizingCanBeUndone(animeId[1..]);
      if PassesThrough(animeId[0]) {
        assert (head + rest)[1..] == rest;
      } else {
        EscapeRoundTrip(animeId[0]);
        assert (head + rest)[1..5] == head[1..5] && (head + rest)[5..] == rest;
      }
    }
  }

  // ----- File names -----

  function IsSpace(unit: Unit): bool {
    || unit == 0x20 || 0x09 <= unit <= 0x0D || unit == 0xA0 || unit == 0x1680 || 0x2000 <= unit <= 0x200A
    || unit == 0x2028 || unit == 0x2029 || unit == 0x202F || unit == 0x205F || unit == 0x3000 || unit == 0xFEFF
  }

  function DropFront(name: Name, drops: Unit -> bool): Name {
    if name != [] && drops(name[0]) then DropFront(name[1..], drops) else name
  }

  function DropBack(name: Name, drops: Unit -> bool): Name {
    if name != [] && drops(name[|name| - 1]) then DropBack(name[..|name| - 1], drops) else name
  }

  function Strip(name: Name, drops: Unit -> bool): Name { DropBack(DropFront(name, drops), drops) }

  /** The first 16 units of an etag without its quotes, or the fallback when there is none. */
  function ExtractEtagToken(etag: Option<Name>, fallbackToken: Name): Name {
    if etag.None? || etag.value == [] then fallbackToken
    else
      var stripped := Strip(Strip(etag.value, unit => unit == QUOTE), unit => IsSpace(unit));
      if stripped == [] then fallbackToken
      else if |stripped| <= ETAG_TOKEN_LENGTH then stripped else stripped[..ETAG_TOKEN_LENGTH]
  }

  function FileName(animeId: Name, token: Name): Name { Sanitize(animeId) + [DASH] + token + JPG }

  function BuildCoverFileName(animeId: Name, etag: Option<Name>, fallbackToken: Name): Name {
    FileName(animeId, ExtractEtagToken(etag, fallbackToken))
  }

  /** What is dropped off each end of a text, and no unit more. */
  lemma {:induction false} StripIs(name: Name, drops: Unit -> bool) returns (front: Name, back: Name)
    ensures var core := Strip(name, drops);
      && name == front + core + back
      && (forall unit | unit in front + back :: drops(unit))
      && (core != [] ==> !drops(core[0]) && !drops(core[|core| - 1]))
    decreases |name|
  {
    front, back := [], [];
    if name != [] && drops(name[0]) {
      front, back := StripIs(name[1..], drops);
      front := [name[0]] + front;
    } else if name != [] && drops(name[|name| - 1]) {
      front, back := StripIs(name[..|name| - 1], drops);
      assert front + Strip(name[..|name| - 1], drops) != [] ==> front == [];
      back := back + [name[|name| - 1]];
    }
  }

  /** A token is the start of what an etag holds inside its quotes, and then inside its spaces. */
  lemma TheTokenIsTheEtags(etag: Name, fallbackToken: Name)
    returns (lead: Name, left: Name, core: Name, right: Name, trail: Name)
    ensures etag == lead + left + core + right + trail
    ensures forall unit | unit in lead + trail :: unit == QUOTE
    ensures forall unit | unit in left + right :: IsSpace(unit)
    ensures var inner := left + core + right; inner != [] ==> inner[0] != QUOTE && inner[|inner| - 1] != QUOTE
    ensures core != [] ==> !IsSpace(core[0]) && !IsSpace(core[|core| - 1])
    ensures ExtractEtagToken(Some(etag), fallbackToken)
      == if core == [] then fallbackToken else if |core| <= 16 then core else core[..16]
    ensures ExtractEtagToken(None, fallbackToken) == fallbackToken
  {
    var quotes, spaces := (unit: Unit) => unit == QUOTE, (unit: Unit) => IsSpace(unit);
    lead, trail := StripIs(etag, quotes);
    var inner := Strip(etag, quotes);
    left, right := StripIs(inner, spaces);
    core := Strip(inner, spaces);
  }

  /** Dropping the quotes or spaces around a text leaves a stretch of it. */
  lemma {:induction false} DroppingKeepsUnits(name: Name, drops: Unit -> bool, unit: Unit)
    ensures unit in DropFront(name, drops) ==> unit in name
    ensures unit in DropBack(name, drops) ==> unit in name
    decreases |name|
  {
    if name != [] {
      DroppingKeepsUnits(name[1..], drops, unit);
      DroppingKeepsUnits(name[..|name| - 1], drops, unit);
    }
  }

  /** A token has no dash when neither the etag nor the fallback has one. */
  lemma TokensOfDashFreeEtags(etag: Option<Name>, fallbackToken: Name)
    requires DASH !in fallbackToken && (etag.Some? ==> DASH !in etag.value)
    ensures DASH !in ExtractEtagToken(etag, fallbackToken)
  {
    if etag.Some? {
      var quotes, spaces := (unit: Unit) => unit == QUOTE, (unit: Unit) => IsSpace(unit);
      DroppingKeepsUnits(etag.value, quotes, DASH);
      DroppingKeepsUnits(DropFront(etag.value, quotes), quotes, DASH);
      var stripped := Strip(etag.value, quotes);
      DroppingKeepsUnits(stripped, spaces, DASH);
      DroppingKeepsUnits(DropFront(stripped, spaces), spaces, DASH);
    }
  }

  lemma DashUnit(unit: Unit)
    ensures DASH in SanitizeUnit(unit) ==> unit == DASH && SanitizeUnit(unit) == [DASH]
  {
    EscapesHaveNoDash(unit);
  }

  /** A dash in an escaped name is a dash of the id, and splits both. */
  lemma {:induction false} DashSplits(animeId: Name, k: nat) returns (j: nat)
    requires k < |Sanitize(animeId)| && Sanitize(animeId)[k] == DASH
    ensures j < |animeId| && animeId[j] == DASH
    ensures Sanitize(animeId[..j]) == Sanitize(animeId)[..k] && Sanitize(animeId[j + 1..]) == Sanitize(animeId)[k + 1..]
  {
    hide SanitizeUnit;
    var head, rest := SanitizeUnit(animeId[0]), Sanitize(animeId[1..]);
    if k < |head| {
      j := 0;
      DashUnit(animeId[0]);
      assert head[k] == DASH;
      assert (head + rest)[1..] == rest;
      assert animeId[..0] == [];
    } else {
      var tail := DashSplits(animeId[1..], k - |head|);
      j := tail + 1;
      assert animeId[..j][0] == animeId[0] && animeId[..j][1..] == animeId[1..][..tail];
      assert animeId[j + 1..] == animeId[1..][tail + 1..];
      assert (head + rest)[..k] == head + rest[..k - |head|];
      assert (head + rest)[k + 1..] == rest[k - |head| + 1..];
    }
  }

  lemma EscapesHaveNoDash(unit: Unit)
    ensures !PassesThrough(unit) ==> DASH !in Escape(unit)
  {
  }

  /** The token reads as the escaped name of some id, a dash, and `shorter`. */
  ghost predicate Extends(token: Name, shorter: Name) {
    exists q: Name :: token == Sanitize(q) + [DASH] + shorter
  }

  lemma LongerTokenCollides(animeId: Name, token: Name, shorter: Name, q: Name)
    requires token == Sanitize(q) + [DASH] + shorter
    ensures var other := animeId + [DASH] + q;
      other != animeId && FileName(animeId, token) == FileName(other, shorter)
  {
    var other := animeId + [DASH] + q;
    assert |other| > |animeId|;
    SanitizeAround(animeId, q);
    hide Sanitize;
    Reassociate(Sanitize(animeId), [DASH], Sanitize(q), shorter);
  }

  lemma SanitizeAround(animeId: Name, q: Name)
    ensures Sanitize(animeId + [DASH] + q) == Sanitize(animeId) + [DASH] + Sanitize(q)
  {
    SanitizeConcat(animeId + [DASH], q);
    SanitizeConcat(animeId, [DASH]);
    assert Sanitize([DASH]) == [DASH] + Sanitize([]);
  }

  lemma Reassociate(a: Name, dash: Name, q: Name, shorter: Name)
    ensures a + dash + (q + dash + shorter) + JPG == (a + dash + q) + dash + shorter + JPG
  {
  }

  lemma CollisionExtends(a: Name, b: Name, token: Name, shorter: Name)
    requires FileName(a, token) == FileName(b, shorter) && |Sanitize(a)| < |Sanitize(b)|
    ensures Extends(token, shorter)
  {
    var k := |Sanitize(a)|;
    LongerPrefix(Sanitize(a), Sanitize(b), token, shorter);
    var j := DashSplits(b, k);
    assert token == Sanitize(b[j + 1..]) + [DASH] + shorter;
  }

  /** Two names equal as wholes, read past the dash of the one with the shorter id. */
  lemma LongerPrefix(a: Name, b: Name, token: Name, shorter: Name)
    requires a + [DASH] + token + JPG == b + [DASH] + shorter + JPG && |a| < |b|
    ensures b[|a|] == DASH && token == b[|a| + 1..] + [DASH] + shorter
  {
    var name := a + [DASH] + token + JPG;
    assert name[|a|] == DASH && name[|a|] == b[|a|];
    var k := |a| + 1;
    assert name[k..|name| - 4] == token;
    assert (b + [DASH] + shorter + JPG)[k..|name| - 4] == b[k..] + [DASH] + shorter;
  }

  lemma ExtendingNeedsADash(token: Name, shorter: Name)
    requires Extends(token, shorter)
    ensures DASH in token
  {
    var q: Name :| token == Sanitize(q) + [DASH] + shorter;
    assert token[|Sanitize(q)|] == DASH;
  }

  /**
   * Names collide exactly when tokens do: two different animes can share a file name under these two tokens if and only
   * if one token is the other behind an escaped name and a dash.
   */
  lemma NamesCollideExactlyWhen(token: Name, other: Name)
    ensures (exists a: Name, b: Name :: a != b && FileName(a, token) == FileName(b, other))
      <==> Extends(token, other) || Extends(other, token)
  {
    if a: Name, b: Name :| a != b && FileName(a, token) == FileName(b, other) {
      if |Sanitize(a)| < |Sanitize(b)| {
        CollisionExtends(a, b, token, other);
      } else if |Sanitize(b)| < |Sanitize(a)| {
        CollisionExtends(b, a, other, token);
      } else {
        assert FileName(a, token)[..|Sanitize(a)|] == Sanitize(a) == FileName(b, other)[..|Sanitize(b)|] == Sanitize(b);
        SanitizingCanBeUndone(a);
        SanitizingCanBeUndone(b);
      }
    }
    if Extends(token, other) {
      var q: Name :| token == Sanitize(q) + [DASH] + other;
      LongerTokenCollides([], token, other, q);
    }
    if Extends(other, token) {
      var q: Name :| other == Sanitize(q) + [DASH] + token;
      LongerTokenCollides([], other, token, q);
      assert FileName([] + [DASH] + q, token) == FileName([], other);
    }
  }

  /** Two animes never share a file name while tokens hold no dash, whatever the ids. */
  lemma DashFreeNamesDiffer(a: Name, b: Name, token: Name, other: Name)
    requires DASH !in token && DASH !in other && a != b
    ensures FileName(a, token) != FileName(b, other)
  {
    NamesCollideExactlyWhen(token, other);
    assert !Extends(token, other) by {
      if Extends(token, other) { ExtendingNeedsADash(token, other); }
    }
    assert !Extends(other, token) by {
      if Extends(other, token) { ExtendingNeedsADash(other, token); }
    }
  }
}
