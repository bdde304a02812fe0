/** Board identities composed from a base identity and an optional agent key (providers/comms.py). */
module Identity {
  import opened Vocabulary
  import opened Text

  const MAX_AGENT_KEY_LENGTH := 100

  datatype Fault =
    | EmptyKey | KeyTooLong | DelimiterInKey | ControlCharacter(position: nat) | OutsideAllowlist
    | DelimiterInBase

  datatype Result<+T> = Ok(value: T) | Err(fault: Fault)

  /** Whether `::` occurs in `s`. */
  predicate HasDelimiter(s: string) {
    exists i :: 0 <= i < |s| - 1 && s[i] == ':' && s[i + 1] == ':'
  }

  predicate IsControl(c: char) {
    c as int < 32 || c as int == 127
  }

  predicate InAllowlist(c: char) {
    'A' <= c <= 'Z' || 'a' <= c <= 'z' || '0' <= c <= '9' || c == '.' || c == '_' || c == '-'
  }

  predicate AllInAllowlist(s: string) {
    forall i :: 0 <= i < |s| ==> InAllowlist(s[i])
  }

  predicate NoControl(s: string) {
    forall i :: 0 <= i < |s| ==> !IsControl(s[i])
  }

  /** The allowlist pattern, whose end anchor also matches before one trailing newline. */
  predicate MatchesAllowlist(s: string) {
    var body := if s != "" && s[|s| - 1] == '\n' then s[..|s| - 1] else s;
    body != "" && AllInAllowlist(body)
  }

  /** A key that is safe to append: short, and made of allowlist characters only. */
  predicate IsKey(k: string) {
    1 <= |k| <= MAX_AGENT_KEY_LENGTH && AllInAllowlist(k)
  }

  predicate FirstControlAt(k: string, i: nat) {
    i < |k| && IsControl(k[i]) && forall j :: 0 <= j < i ==> !IsControl(k[j])
  }

  /** What each refusal says about the stripped key; at most one applies. */
  predicate Explains(fault: Fault, k: string) {
    var short := 1 <= |k| <= MAX_AGENT_KEY_LENGTH;
    match fault
    case EmptyKey => k == ""
    case KeyTooLong => |k| > MAX_AGENT_KEY_LENGTH
    case DelimiterInKey => short && HasDelimiter(k)
    case ControlCharacter(i) => short && !HasDelimiter(k) && FirstControlAt(k, i)
    case OutsideAllowlist => short && !HasDelimiter(k) && NoControl(k) && !IsKey(k)
    case DelimiterInBase => false
  }

  /** With control characters excluded the pattern admits exactly the keys, none with a delimiter. */
  lemma AllowlistExact(k: string)
    ensures IsKey(k) ==> !HasDelimiter(k) && NoControl(k)
    ensures 1 <= |k| <= MAX_AGENT_KEY_LENGTH && NoControl(k) ==> (MatchesAllowlist(k) <==> IsKey(k))
  {
    if k != "" && k[|k| - 1] == '\n' { assert IsControl(k[|k| - 1]); }
  }

  method ValidateAgentKey(agentKey: Option<string>) returns (r: Result<Option<string>>)
    ensures agentKey.None? ==> r == Ok(None)
    ensures agentKey.Some? ==> (r.Ok? <==> IsKey(Strip(agentKey.value)))
    ensures agentKey.Some? && r.Ok? ==> r.value == Some(Strip(agentKey.value))
    ensures agentKey.Some? && r.Err? ==> Explains(r.fault, Strip(agentKey.value))
  {
    hide MatchesAllowlist, AllInAllowlist, HasDelimiter, IsControl, Strip;
    if agentKey.None? { return Ok(None); }
    var key := Strip(agentKey.value);
    AllowlistExact(key);
    if key == "" { return Err(EmptyKey); }
    if |key| > MAX_AGENT_KEY_LENGTH { return Err(KeyTooLong); }
    if HasDelimiter(key) { return Err(DelimiterInKey); }
    var i := 0;
    while i < |key|
      invariant 0 <= i <= |key|
      invariant forall j :: 0 <= j < i ==> !IsControl(key[j])
    {
      if IsControl(key[i]) { return Err(ControlCharacter(i)); }
      i := i + 1;
    }
    if !MatchesAllowlist(key) { return Err(OutsideAllowlist); }
    r := Ok(Some(key));
  }

  function ComposeSub(base: string, key: Option<string>): Result<string> {
    if HasDelimiter(base) then Err(DelimiterInBase)
    else if key.None? then Ok(base)
    else Ok(base + "::" + key.value)
  }

  /** Composing is refused exactly for a base that holds `::`; a key is joined to any other. */
  lemma ComposeRefusesExactly(base: string, key: Option<string>)
    ensures ComposeSub(base, key).Err? <==> exists x, y :: base == x + "::" + y
    ensures ComposeSub(base, key).Err? ==> ComposeSub(base, key) == Err(DelimiterInBase)
    ensures ComposeSub(base, key).Ok? ==>
      ComposeSub(base, key).value == if key.Some? then base + "::" + key.value else base
  {
    if HasDelimiter(base) {
      var i :| 0 <= i < |base| - 1 && base[i] == ':' && base[i + 1] == ':';
      assert base == base[..i] + "::" + base[i + 2..];
    }
    if x, y :| base == x + "::" + y {
      assert base[|x|] == ':' && base[|x| + 1] == ':';
    }
  }

  /** The letters and digits of ASCII, the hyphen, the dot and the underscore, by code point. */
  predicate IsKeyCode(n: int) {
    48 <= n <= 57 || 65 <= n <= 90 || 97 <= n <= 122 || n == 45 || n == 46 || n == 95
  }

  lemma KeysExactly(k: string)
    ensures IsKey(k) <==> 1 <= |k| <= 100 && forall i :: 0 <= i < |k| ==> IsKeyCode(k[i] as int)
  {
  }

  // --- reading a composed identity back ---

  /** The part after the last `:`; all of `s` when there is none. */
  function AfterLastColon(s: string): (r: string)
    ensures |r| <= |s| && r == s[|s| - |r|..]
    ensures forall i :: 0 <= i < |r| ==> r[i] != ':'
    ensures |r| < |s| ==> s[|s| - |r| - 1] == ':'
  {
    if s == "" || s[|s| - 1] == ':' then "" else AfterLastColon(s[..|s| - 1]) + [s[|s| - 1]]
  }

  datatype Identity = Identity(base: string, key: Option<string>)

  predicate IsIdentity(id: Identity) {
    !HasDelimiter(id.base) && (id.key.Some? ==> IsKey(id.key.value))
  }

  function Compose(id: Identity): string
    requires IsIdentity(id)
  {
    ComposeSub(id.base, id.key).value
  }

  /** Splits at the last `:` when a delimiter is present. */
  function Decompose(s: string): Identity {
    var key := AfterLastColon(s);
    if HasDelimiter(s) && |key| + 2 <= |s| then Identity(s[..|s| - |key| - 2], Some(key)) else Identity(s, None)
  }

  lemma {:induction false} AfterLastColonExact(front: string, key: string)
    requires front != "" && front[|front| - 1] == ':' && forall i :: 0 <= i < |key| ==> key[i] != ':'
    ensures AfterLastColon(front + key) == key
  {
    if key == "" {
      assert front + key == front;
    } else {
      AfterLastColonExact(front, key[..|key| - 1]);
      assert (front + key)[..|front + key| - 1] == front + key[..|key| - 1];
    }
  }

  /** Splitting undoes composing, for every base without the delimiter, also one ending in `:`. */
  lemma DecomposeUndoesCompose(id: Identity)
    requires IsIdentity(id)
    ensures Decompose(Compose(id)) == id
  {
    if id.key.Some? {
      var front, key := id.base + "::", id.key.value;
      var s := Compose(id);
      assert s == front + key;
      AfterLastColonExact(front, key);
      assert s[|id.base|] == ':' && s[|id.base| + 1] == ':';
      assert s[..|s| - |key| - 2] == id.base;
    }
  }

  /** Distinct identities never compose to the same text. */
  lemma ComposingIsInjective(one: Identity, two: Identity)
    requires IsIdentity(one) && IsIdentity(two)
    ensures Compose(one) == Compose(two) <==> one == two
  {
    if Compose(one) == Compose(two) {
      DecomposeUndoesCompose(one);
      DecomposeUndoesCompose(two);
    }
  }

  /** The composed texts are exactly those whose parts are a well-formed identity. */
  lemma ComposedExactly(s: string)
    ensures (exists id :: IsIdentity(id) && Compose(id) == s) <==> IsIdentity(Decompose(s))
  {
    if IsIdentity(Decompose(s)) {
      SplitIsFaithful(s);
      assert Compose(Decompose(s)) == s;
    } else if exists id :: IsIdentity(id) && Compose(id) == s {
      var id :| IsIdentity(id) && Compose(id) == s;
      DecomposeUndoesCompose(id);
      assert false;
    }
  }

  lemma SplitIsFaithful(s: string)
    requires IsIdentity(Decompose(s))
    ensures Compose(Decompose(s)) == s
  {
    var key := AfterLastColon(s);
    if HasDelimiter(s) {
      LastDelimiter(s);
    }
  }

  /** A delimiter somewhere, none before the split, and a key without `:` leave only the split point. */
  lemma LastDelimiter(s: string)
    requires HasDelimiter(s)
    requires var r := AfterLastColon(s); |r| + 2 <= |s| && r != "" && !HasDelimiter(s[..|s| - |r| - 2])
    ensures var n := |s| - |AfterLastColon(s)|; s[n - 2] == ':' && s[n - 1] == ':'
  {
  }

  // --- what registration makes of it ---

  /** Registration strips the composed text: only the base loses anything. */
  function AsRegistered(id: Identity): Identity {
    Identity(if id.key.Some? then StripLeft(id.base) else Strip(id.base), id.key)
  }

  lemma {:induction false} StripLeftStopsAtColon(base: string, rest: string)
    requires rest != "" && rest[0] == ':'
    ensures StripLeft(base + rest) == StripLeft(base) + rest
  {
    if base == "" {
      assert base + rest == rest;
    } else {
      assert (base + rest)[1..] == base[1..] + rest;
      StripLeftStopsAtColon(base[1..], rest);
    }
  }

  lemma PartsHoldNoDelimiter(s: string, i: nat, j: nat)
    requires i <= j <= |s| && !HasDelimiter(s)
    ensures !HasDelimiter(s[i..j])
  {
    var part := s[i..j];
    forall k | 0 <= k < |part| - 1 ensures !(part[k] == ':' && part[k + 1] == ':') {
      assert part[k] == s[i + k] && part[k + 1] == s[i + k + 1];
    }
  }

  lemma StrippingKeepsDelimiterOut(base: string)
    requires !HasDelimiter(base)
    ensures !HasDelimiter(StripLeft(base)) && !HasDelimiter(Strip(base))
  {
    hide HasDelimiter, IsSpace;
    var left := StripLeft(base);
    var right := StripRight(left);
    PartsHoldNoDelimiter(base, |base| - |left|, |base|);
    assert left == base[|base| - |left|..|base|];
    PartsHoldNoDelimiter(left, 0, |right|);
    assert right == left[0..|right|];
  }

  lemma NothingToStrip(s: string)
    requires s != "" && !IsSpace(s[|s| - 1])
    ensures StripRight(s) == s
  {
  }

  lemma JoinIsAssociative(base: string, key: string)
    ensures base + "::" + key == base + ("::" + key)
  {
  }

  lemma DelimitedEndsVisibly(left: string, key: string)
    requires IsKey(key)
    ensures StripRight(left + ("::" + key)) == left + ("::" + key)
  {
    hide StripRight, AllInAllowlist, IsSpace, HasDelimiter;
    var s := left + ("::" + key);
    KeyEndsVisibly(key);
    assert |key| >= 1 && s[|s| - 1] == key[|key| - 1];
    NothingToStrip(s);
  }

  lemma KeyedTextStrips(base: string, key: string)
    requires IsKey(key)
    ensures Strip(base + "::" + key) == StripLeft(base) + "::" + key
  {
    hide IsKey, HasDelimiter, StripLeft, StripRight, AllInAllowlist, IsSpace;
    JoinIsAssociative(base, key);
    JoinIsAssociative(StripLeft(base), key);
    assert ("::" + key)[0] == ':';
    StripLeftStopsAtColon(base, "::" + key);
    DelimitedEndsVisibly(StripLeft(base), key);
  }

  lemma KeyEndsVisibly(key: string)
    requires IsKey(key)
    ensures !IsSpace(key[|key| - 1])
  {
    assert InAllowlist(key[|key| - 1]);
  }

  lemma RegistrationKeepsIdentity(id: Identity)
    requires IsIdentity(id)
    ensures IsIdentity(AsRegistered(id)) && Strip(Compose(id)) == Compose(AsRegistered(id))
  {
    hide Strip, StripLeft, StripRight, HasDelimiter, IsKey;
    StrippingKeepsDelimiterOut(id.base);
    if id.key.Some? { KeyedTextStrips(id.base, id.key.value); }
  }

  /** Two identities share a registered subject exactly when their keys agree and their bases
      differ in outer whitespace only (leading only, when there is a key). */
  lemma RegistrationCollidesExactly(one: Identity, two: Identity)
    requires IsIdentity(one) && IsIdentity(two)
    ensures Strip(Compose(one)) == Strip(Compose(two)) <==> AsRegistered(one) == AsRegistered(two)
  {
    RegistrationKeepsIdentity(one);
    RegistrationKeepsIdentity(two);
    ComposingIsInjective(AsRegistered(one), AsRegistered(two));
  }

  lemma OneSpaceStrips(s: string)
    requires s != "" && IsSpace(s[0])
    ensures StripLeft(s) == StripLeft(s[1..])
  {
  }

  lemma LeadingSpaceIsStripped(base: string)
    ensures StripLeft(" " + base) == StripLeft(base)
  {
    var spaced := " " + base;
    assert spaced[0] == ' ' && spaced[1..] == base;
    hide StripLeft, StripRight, HasDelimiter;
    OneSpaceStrips(spaced);
  }

  lemma LeadingSpaceIsNoDelimiter(base: string)
    requires !HasDelimiter(base)
    ensures !HasDelimiter(" " + base)
  {
    hide StripLeft, StripRight;
    var spaced := " " + base;
    forall i | 0 <= i < |spaced| - 1 ensures !(spaced[i] == ':' && spaced[i + 1] == ':') {
      if i > 0 { assert spaced[i] == base[i - 1] && spaced[i + 1] == base[i - 1 + 1]; }
    }
  }

  /** So a base with a leading space and the same base without it, under any key, are different
      identities with different texts that register as one subject. */
  lemma SpacedBasesCollide(id: Identity)
    requires IsIdentity(id)
    ensures var spaced := Identity(" " + id.base, id.key);
      && IsIdentity(spaced) && spaced != id && Compose(spaced) != Compose(id)
      && Strip(Compose(spaced)) == Strip(Compose(id))
  {
    hide StripLeft, StripRight, HasDelimiter, IsKey, ComposeSub;
    var spaced := Identity(" " + id.base, id.key);
    LeadingSpaceIsStripped(id.base);
    LeadingSpaceIsNoDelimiter(id.base);
    assert |spaced.base| == |id.base| + 1;
    ComposingIsInjective(spaced, id);
    RegistrationCollidesExactly(spaced, id);
  }
}
