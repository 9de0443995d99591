/**
 * The key layout of the votes database.
 *
 * Every key is a string. Session and validator indices are rendered in decimal,
 * a candidate hash by its textual rendering, which never contains '/'.
 *
 *   vote/prune/waterlevel                        the pruning watermark
 *   vote/s_{session}/c_{candidate}/v_{validator}  the vote of a validator on a candidate
 *   vote/s_{session}/v_{validator}/c_{candidate}  the per-validator marker
 */
module KeySchema {
  import opened Wrappers

  type SessionIndex = nat
  type ValidatorIndex = nat
  /**
   * The textual rendering of a candidate hash, as it appears in keys: free
   * of '/'. Key injectivity is stated over this rendering.
   */
  type CandidateHash = s: string | '/' !in s
  type Key = string

  /** The fixed key that holds the pruning watermark. */
  const WatermarkKey: Key := "vote/prune/waterlevel"

  /** What every per-session key starts with, before the session number. */
  const SessionTag: string := "vote/s_"

  // ---------------------------------------------------------------------------
  // Decimal rendering of indices, and its inverse

  predicate IsDigit(ch: char) {
    '0' <= ch <= '9'
  }

  predicate AllDigits(s: string) {
    forall i | 0 <= i < |s| :: IsDigit(s[i])
  }

  function DigitChar(d: nat): (ch: char)
    requires d < 10
    ensures IsDigit(ch)
  {
    ('0' as int + d) as char
  }

  function DigitValue(ch: char): (d: nat)
    requires IsDigit(ch)
    ensures d < 10
  {
    ch as int - '0' as int
  }

  /** The decimal rendering of `n`, without leading zeros (Rust's `{}` for integers). */
  function Dec(n: nat): (r: string)
    ensures |r| > 0 && AllDigits(r)
    decreases n
  {
    if n < 10 then [DigitChar(n)] else Dec(n / 10) + [DigitChar(n % 10)]
  }

  /** The number a string of decimal digits denotes. */
  function ParseDec(s: string): nat
    requires AllDigits(s)
    decreases |s|
  {
    if s == [] then 0 else 10 * ParseDec(s[..|s| - 1]) + DigitValue(s[|s| - 1])
  }

  /** Parsing undoes rendering. */
  lemma {:induction false} ParseDecOfDec(n: nat)
    ensures ParseDec(Dec(n)) == n
    decreases n
  {
    if n >= 10 {
      ParseDecOfDec(n / 10);
      var r := Dec(n);
      assert r[..|r| - 1] == Dec(n / 10);
      assert r[|r| - 1] == DigitChar(n % 10);
    }
  }

  /** Distinct indices render to distinct strings. */
  lemma DecInjective(a: nat, b: nat)
    ensures Dec(a) == Dec(b) <==> a == b
  {
    if Dec(a) == Dec(b) {
      ParseDecOfDec(a);
      ParseDecOfDec(b);
    }
  }

  lemma DigitsHaveNoSlash(s: string)
    requires AllDigits(s)
    ensures '/' !in s
  {
  }

  /** The length of the run of digits `s` starts with. */
  function DigitRun(s: string): (i: nat)
    ensures i <= |s| && AllDigits(s[..i])
    ensures i < |s| ==> !IsDigit(s[i])
    decreases |s|
  {
    if s == [] || !IsDigit(s[0]) then 0
    else
      var i := 1 + DigitRun(s[1..]);
      assert s[..i] == [s[0]] + s[1..][..i - 1];
      i
  }

  lemma {:induction false} DigitRunStops(d: string, rest: string)
    requires AllDigits(d) && |rest| > 0 && !IsDigit(rest[0])
    ensures DigitRun(d + rest) == |d|
    decreases |d|
  {
    if d == [] {
      assert d + rest == rest;
    } else {
      var s := d + rest;
      assert s[0] == d[0] && IsDigit(s[0]);
      assert s[1..] == d[1..] + rest;
      assert AllDigits(d[1..]);
      DigitRunStops(d[1..], rest);
      assert DigitRun(s) == 1 + DigitRun(s[1..]);
    }
  }

  // ---------------------------------------------------------------------------
  // The keys

  /** The key of the vote of `validator` on `candidate` in `session`. */
  function KeyPerHash(session: SessionIndex, validator: ValidatorIndex, candidate: CandidateHash): (k: Key)
    ensures k == SessionPrefix(session) + ("c_" + candidate + "/v_" + Dec(validator))
  {
    var k := SessionTag + Dec(session) + "/c_" + candidate + "/v_" + Dec(validator);
    assert k == SessionPrefix(session) + ("c_" + candidate + "/v_" + Dec(validator));
    k
  }

  /** The key of the marker that `validator` voted on `candidate` in `session`. */
  function KeyPerVal(session: SessionIndex, validator: ValidatorIndex, candidate: CandidateHash): (k: Key)
    ensures k == SessionPrefix(session) + ("v_" + Dec(validator) + "/c_" + candidate)
  {
    var k := SessionTag + Dec(session) + "/v_" + Dec(validator) + "/c_" + candidate;
    assert k == SessionPrefix(session) + ("v_" + Dec(validator) + "/c_" + candidate);
    k
  }

  /** The pruning prefix of a session as the source builds it: no trailing '/'. */
  function PrunePrefixAsWritten(session: SessionIndex): (p: string)
    ensures SessionTag <= p && |p| > |SessionTag| && AllDigits(p[|SessionTag|..])
  {
    var p := SessionTag + Dec(session);
    assert p[|SessionTag|..] == Dec(session);
    p
  }

  /** The pruning prefix of a session, closed by '/' so that it selects that session only. */
  function SessionPrefix(session: SessionIndex): (p: string)
    ensures p == PrunePrefixAsWritten(session) + "/"
    ensures PrunePrefixAsWritten(session) < p && p[|p| - 1] == '/'
  {
    SessionTag + Dec(session) + "/"
  }

  /**
   * The session a key belongs to: `Some(s)` when the key starts with
   * "vote/s_", then the canonical decimal rendering of `s`, then '/'.
   */
  function KeySession(k: Key): Option<SessionIndex> {
    if |k| < |SessionTag| || k[..|SessionTag|] != SessionTag then None
    else
      var rest := k[|SessionTag|..];
      var i := DigitRun(rest);
      if i == |rest| || rest[i] != '/' || Dec(ParseDec(rest[..i])) != rest[..i] then None
      else Some(ParseDec(rest[..i]))
  }

  /** A key lies under the prefix of session `s` exactly when it belongs to session `s`. */
  lemma SessionPrefixIff(s: SessionIndex, k: Key)
    ensures SessionPrefix(s) <= k <==> KeySession(k) == Some(s)
  {
    var tag, d := SessionTag, Dec(s);
    var p := SessionPrefix(s);
    assert p == tag + d + "/" && |p| == |tag| + |d| + 1;
    if p <= k {
      var rest := k[|tag|..];
      assert k[..|p|] == p;
      assert k[..|tag|] == tag;
      assert rest[..|d|] == d && rest[|d|] == '/';
      assert rest == d + rest[|d|..];
      DigitRunStops(d, rest[|d|..]);
      ParseDecOfDec(s);
    }
    if KeySession(k) == Some(s) {
      var rest := k[|tag|..];
      var i := DigitRun(rest);
      assert rest[..i] == d;
      assert k[..|p|] == tag + rest[..i] + [rest[i]];
    }
  }

  // ---------------------------------------------------------------------------
  // Properties of the layout

  /** Both keys of a triple lie under the pruning prefix of their session, in either form. */
  lemma KeysUnderSession(s: SessionIndex, v: ValidatorIndex, c: CandidateHash)
    ensures SessionPrefix(s) <= KeyPerHash(s, v, c) && SessionPrefix(s) <= KeyPerVal(s, v, c)
    ensures PrunePrefixAsWritten(s) <= KeyPerHash(s, v, c) && PrunePrefixAsWritten(s) <= KeyPerVal(s, v, c)
    ensures KeySession(KeyPerHash(s, v, c)) == Some(s) && KeySession(KeyPerVal(s, v, c)) == Some(s)
  {
    assert KeyPerHash(s, v, c) == SessionPrefix(s) + ("c_" + c + "/v_" + Dec(v));
    assert KeyPerVal(s, v, c) == SessionPrefix(s) + ("v_" + Dec(v) + "/c_" + c);
    SessionPrefixIff(s, KeyPerHash(s, v, c));
    SessionPrefixIff(s, KeyPerVal(s, v, c));
  }

  /** The (corrected) prefix of session `s` selects the keys of session `s` and of no other. */
  lemma SessionPrefixSelectsSession(s: SessionIndex, s': SessionIndex, v: ValidatorIndex, c: CandidateHash)
    ensures SessionPrefix(s) <= KeyPerHash(s', v, c) <==> s == s'
    ensures SessionPrefix(s) <= KeyPerVal(s', v, c) <==> s == s'
  {
    KeysUnderSession(s', v, c);
    SessionPrefixIff(s, KeyPerHash(s', v, c));
    SessionPrefixIff(s, KeyPerVal(s', v, c));
  }

  /** The watermark key belongs to no session, so pruning never erases it, and no vote key is it. */
  lemma WatermarkKeyOutsideSessions(s: SessionIndex, v: ValidatorIndex, c: CandidateHash)
    ensures KeySession(WatermarkKey) == None
    ensures !(SessionPrefix(s) <= WatermarkKey) && !(PrunePrefixAsWritten(s) <= WatermarkKey)
    ensures KeyPerHash(s, v, c) != WatermarkKey && KeyPerVal(s, v, c) != WatermarkKey
  {
    assert WatermarkKey[..|SessionTag|] != SessionTag by {
      assert WatermarkKey[5] == 'p' && SessionTag[5] == 's';
    }
    SessionPrefixIff(s, WatermarkKey);
    var p := PrunePrefixAsWritten(s);
    assert p[5] == 's';
    KeysUnderSession(s, v, c);
  }

  /** In `a + "/" + b` with `a` free of '/', the first '/' is at position |a|. */
  lemma FirstSlashAt(a: string, b: string)
    requires '/' !in a
    ensures (a + "/" + b)[|a|] == '/'
    ensures forall i | 0 <= i < |a| :: (a + "/" + b)[i] != '/'
  {
    forall i | 0 <= i < |a| ensures (a + "/" + b)[i] != '/' {
      assert (a + "/" + b)[i] == a[i];
    }
  }

  /** Two strings split at their first '/' agree on both halves. */
  lemma SplitAtFirstSlash(a: string, b: string, a': string, b': string)
    requires '/' !in a && '/' !in a'
    requires a + "/" + b == a' + "/" + b'
    ensures a == a' && b == b'
  {
    var k, k' := a + "/" + b, a' + "/" + b';
    FirstSlashAt(a, b);
    FirstSlashAt(a', b');
    assert |a| == |a'|;
    assert a == k[..|a|] && a' == k'[..|a'|];
    assert b == k[|a| + 1..] && b' == k'[|a'| + 1..];
  }

  /** After the session tag, a key is the session number, a '/', and the rest. */
  lemma SplitSession(s: SessionIndex, rest: string, s': SessionIndex, rest': string)
    requires SessionTag + Dec(s) + "/" + rest == SessionTag + Dec(s') + "/" + rest'
    ensures s == s' && rest == rest'
  {
    var x, x' := Dec(s) + "/" + rest, Dec(s') + "/" + rest';
    assert SessionTag + Dec(s) + "/" + rest == SessionTag + x;
    assert SessionTag + Dec(s') + "/" + rest' == SessionTag + x';
    assert x == (SessionTag + x)[|SessionTag|..];
    assert x' == (SessionTag + x')[|SessionTag|..];
    DigitsHaveNoSlash(Dec(s));
    DigitsHaveNoSlash(Dec(s'));
    SplitAtFirstSlash(Dec(s), rest, Dec(s'), rest');
    DecInjective(s, s');
  }

  /** Distinct triples have distinct per-hash keys. */
  lemma KeyPerHashInjective(s: SessionIndex, v: ValidatorIndex, c: CandidateHash,
                            s': SessionIndex, v': ValidatorIndex, c': CandidateHash)
    ensures KeyPerHash(s, v, c) == KeyPerHash(s', v', c') <==> s == s' && v == v' && c == c'
  {
    if KeyPerHash(s, v, c) == KeyPerHash(s', v', c') {
      var rest, rest' := "c_" + c + "/v_" + Dec(v), "c_" + c' + "/v_" + Dec(v');
      assert KeyPerHash(s, v, c) == SessionTag + Dec(s) + "/" + rest;
      assert KeyPerHash(s', v', c') == SessionTag + Dec(s') + "/" + rest';
      SplitSession(s, rest, s', rest');
      assert rest[2..] == c + "/" + ("v_" + Dec(v));
      assert rest'[2..] == c' + "/" + ("v_" + Dec(v'));
      SplitAtFirstSlash(c, "v_" + Dec(v), c', "v_" + Dec(v'));
      assert Dec(v) == ("v_" + Dec(v))[2..];
      assert Dec(v') == ("v_" + Dec(v'))[2..];
      DecInjective(v, v');
    }
  }

  /** A per-validator key is the session part, '/', and the validator-candidate tail. */
  lemma KeyPerValShape(s: SessionIndex, v: ValidatorIndex, c: CandidateHash)
    ensures KeyPerVal(s, v, c) == SessionTag + Dec(s) + "/" + ("v_" + (Dec(v) + "/" + ("c_" + c)))
  {
  }

  /** The validator-candidate tail of a per-validator key determines both. */
  lemma ValTailInjective(v: ValidatorIndex, c: CandidateHash, v': ValidatorIndex, c': CandidateHash)
    requires "v_" + (Dec(v) + "/" + ("c_" + c)) == "v_" + (Dec(v') + "/" + ("c_" + c'))
    ensures v == v' && c == c'
  {
    var tail, tail' := Dec(v) + "/" + ("c_" + c), Dec(v') + "/" + ("c_" + c');
    assert tail == ("v_" + tail)[2..] && tail' == ("v_" + tail')[2..];
    DigitsHaveNoSlash(Dec(v));
    DigitsHaveNoSlash(Dec(v'));
    SplitAtFirstSlash(Dec(v), "c_" + c, Dec(v'), "c_" + c');
    DecInjective(v, v');
    assert c == ("c_" + c)[2..] && c' == ("c_" + c')[2..];
  }

  /** Distinct triples have distinct per-validator keys. */
  lemma KeyPerValInjective(s: SessionIndex, v: ValidatorIndex, c: CandidateHash,
                           s': SessionIndex, v': ValidatorIndex, c': CandidateHash)
    ensures KeyPerVal(s, v, c) == KeyPerVal(s', v', c') <==> s == s' && v == v' && c == c'
  {
    if KeyPerVal(s, v, c) == KeyPerVal(s', v', c') {
      KeyPerValShape(s, v, c);
      KeyPerValShape(s', v', c');
      SplitSession(s, "v_" + (Dec(v) + "/" + ("c_" + c)), s', "v_" + (Dec(v') + "/" + ("c_" + c')));
      ValTailInjective(v, c, v', c');
    }
  }

  /** The two layouts never produce the same key. */
  lemma LayoutsDisjoint(s: SessionIndex, v: ValidatorIndex, c: CandidateHash,
                        s': SessionIndex, v': ValidatorIndex, c': CandidateHash)
    ensures KeyPerHash(s, v, c) != KeyPerVal(s', v', c')
  {
    var rest, rest' := "c_" + c + "/v_" + Dec(v), "v_" + Dec(v') + "/c_" + c';
    assert KeyPerHash(s, v, c) == SessionTag + Dec(s) + "/" + rest;
    assert KeyPerVal(s', v', c') == SessionTag + Dec(s') + "/" + rest';
    assert rest[0] == 'c' && rest'[0] == 'v';
    if KeyPerHash(s, v, c) == KeyPerVal(s', v', c') {
      SplitSession(s, rest, s', rest');
    }
  }

  /**
   * The prefix as the source builds it, without a trailing '/', also matches
   * the keys of later sessions: pruning session `s` (s >= 1) erases the votes
   * of session 10 * s + d as well.
   */
  lemma AsWrittenPrefixReachesLaterSession(s: SessionIndex, d: nat, v: ValidatorIndex, c: CandidateHash)
    requires 1 <= s && d < 10
    ensures 10 * s + d != s
    ensures PrunePrefixAsWritten(s) <= KeyPerHash(10 * s + d, v, c)
    ensures PrunePrefixAsWritten(s) <= KeyPerVal(10 * s + d, v, c)
  {
    var later := 10 * s + d;
    assert later / 10 == s && later % 10 == d;
    assert Dec(later) == Dec(s) + [DigitChar(d)];
    assert KeyPerHash(later, v, c) == PrunePrefixAsWritten(s) + ([DigitChar(d)] + "/c_" + c + "/v_" + Dec(v));
    assert KeyPerVal(later, v, c) == PrunePrefixAsWritten(s) + ([DigitChar(d)] + "/v_" + Dec(v) + "/c_" + c);
  }
}
