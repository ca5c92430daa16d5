/** Redaction of the session credential in control-plane responses. */
module Redaction {
  import opened Wrappers
  import opened Json

  const MARK := "[REDACTED]"

  predicate IsAt(s: string, p: string, i: int) {
    0 <= i <= |s| - |p| && s[i..i + |p|] == p
  }

  ghost predicate Contains(s: string, p: string) {
    exists i :: IsAt(s, p, i)
  }

  /** Leftmost, non-overlapping replacement of a non-empty secret. */
  function Redact(s: string, secret: string): string
    requires secret != ""
    decreases |s|
  {
    if secret <= s then MARK + Redact(s[|secret|..], secret)
    else if s == "" then ""
    else [s[0]] + Redact(s[1..], secret)
  }

  /** The leftmost secret is replaced, and what follows it is redacted in turn. */
  lemma {:induction false} RedactReplacesLeftmost(a: string, secret: string, b: string)
    requires secret != "" && forall i :: 0 <= i < |a| ==> !IsAt(a + secret + b, secret, i)
    ensures Redact(a + secret + b, secret) == a + "[REDACTED]" + Redact(b, secret)
  {
    var s := a + secret + b;
    if a == "" {
      assert s[..|secret|] == secret && s[|secret|..] == b;
    } else {
      assert !IsAt(s, secret, 0);
      assert s[1..] == a[1..] + secret + b && s[0] == a[0];
      forall i | 0 <= i < |a[1..]| ensures !IsAt(a[1..] + secret + b, secret, i) {
        assert !IsAt(s, secret, i + 1);
      }
      RedactReplacesLeftmost(a[1..], secret, b);
    }
  }

  predicate BracketFree(s: string) {
    '[' !in s && ']' !in s
  }

  /** A bracket-free prefix of a redacted text was there before. */
  lemma {:induction false} PrefixWasThere(s: string, secret: string, p: string)
    requires secret != "" && BracketFree(p) && p <= Redact(s, secret)
    ensures p <= s
    decreases |s|
  {
    if p != "" {
      assert p[0] in p;
      if !(secret <= s) {
        var rest := Redact(s[1..], secret);
        assert p[1..] <= rest by {
          assert Redact(s, secret)[1..] == rest;
        }
        assert BracketFree(p[1..]);
        PrefixWasThere(s[1..], secret, p[1..]);
        assert p == [p[0]] + p[1..] && s == [s[0]] + s[1..];
      }
    }
  }

  lemma MarkIsBracketedWord()
    ensures |MARK| == 10 && MARK[0] == '[' && MARK[9] == ']' && MARK[1..9] == "REDACTED"
  {
  }

  /** A secret that starts inside the marker meets a bracket or lies within the word. */
  lemma WhereInMark(all: string, secret: string, i: int)
    requires |all| >= 10 && all[0] == '[' && all[9] == ']' && 0 <= i < 10
    requires secret != "" && IsAt(all, secret, i)
    ensures '[' in secret || ']' in secret || IsAt(all[1..9], secret, i - 1)
  {
    assert forall k :: 0 <= k < |secret| ==> secret[k] == all[i + k];
    if i == 0 {
      assert secret[0] == '[';
    } else if i + |secret| > 9 {
      assert secret[9 - i] == ']';
    } else {
      var w := all[1..9];
      assert forall k :: 0 <= k < |secret| ==> w[i - 1 + k] == secret[k];
      assert w[i - 1..i - 1 + |secret|] == secret;
    }
  }

  lemma NotInMark(rest: string, secret: string, i: int)
    requires secret != "" && BracketFree(secret) && !Contains("REDACTED", secret)
    requires 0 <= i < |MARK|
    ensures !IsAt(MARK + rest, secret, i)
  {
    MarkIsBracketedWord();
    var all := MARK + rest;
    assert all[1..9] == MARK[1..9];
    if IsAt(all, secret, i) {
      WhereInMark(all, secret, i);
    }
  }

  lemma {:induction false} RedactedTextIsClean(s: string, secret: string)
    requires secret != "" && BracketFree(secret) && !Contains("REDACTED", secret)
    ensures !Contains(Redact(s, secret), secret)
    decreases |s|
  {
    var r := Redact(s, secret);
    var (head, rest) := if secret <= s then (MARK, Redact(s[|secret|..], secret))
                        else if s == "" then ("", "") else ([s[0]], Redact(s[1..], secret));
    assert r == head + rest;
    if secret <= s {
      RedactedTextIsClean(s[|secret|..], secret);
    } else if s != "" {
      RedactedTextIsClean(s[1..], secret);
      assert !(secret <= r) by {
        if secret <= r {
          PrefixWasThere(s, secret, secret);
        }
      }
    }
    forall i | 0 <= i <= |r| - |secret|
      ensures !IsAt(r, secret, i)
    {
      if i < |head| {
        if secret <= s {
          NotInMark(rest, secret, i);
        }
      } else {
        assert r[i..i + |secret|] == rest[i - |head|..i - |head| + |secret|];
        assert !IsAt(rest, secret, i - |head|);
      }
    }
  }

  /** A secret without square brackets never survives redaction, in any text, exactly when
      it is not part of the marker word itself. */
  lemma RedactionIsSafeIff(secret: string)
    requires secret != "" && BracketFree(secret)
    ensures (forall s :: !Contains(Redact(s, secret), secret)) <==> !Contains("REDACTED", secret)
  {
    if i :| IsAt("REDACTED", secret, i) {
      assert Redact(secret, secret) == MARK + Redact("", secret) == MARK;
      MarkIsBracketedWord();
      forall k | 0 <= k < |secret| ensures MARK[i + 1..i + 1 + |secret|][k] == secret[k] {
        assert MARK[1..9][i + k] == "REDACTED"[i + k] == "REDACTED"[i..i + |secret|][k];
      }
      assert IsAt(MARK, secret, i + 1);
      assert exists s :: Contains(Redact(s, secret), secret) by {
        assert Contains(Redact(secret, secret), secret);
      }
    } else {
      forall s
        ensures !Contains(Redact(s, secret), secret)
      {
        RedactedTextIsClean(s, secret);
      }
    }
  }

  lemma {:induction false} CleanTextStays(s: string, secret: string)
    requires secret != "" && !Contains(s, secret)
    ensures Redact(s, secret) == s
    decreases |s|
  {
    assert !(secret <= s) by {
      if secret <= s {
        assert IsAt(s, secret, 0);
      }
    }
    if s != "" {
      forall i
        ensures !IsAt(s[1..], secret, i)
      {
        assert IsAt(s[1..], secret, i) ==> IsAt(s, secret, i + 1);
      }
      CleanTextStays(s[1..], secret);
      assert s == [s[0]] + s[1..];
    }
  }

  // ---------------------------------------------------------------- trees

  ghost predicate Usable(secret: string) {
    secret != "" && BracketFree(secret) && !Contains("REDACTED", secret)
  }

  /** The tree with every string redacted and nothing else touched. */
  function Redacted(v: Value, secret: string): Value
    requires secret != ""
    decreases v
  {
    match v
    case Str(s) => Str(Redact(s, secret))
    case Arr(items) => Arr(seq(|items|, i requires 0 <= i < |items| => Redacted(items[i], secret)))
    case Obj(fields) =>
      Obj(seq(|fields|, i requires 0 <= i < |fields| => Field(fields[i].key, Redacted(fields[i].value, secret))))
    case _ => v
  }

  /** The code's test: some key at any depth would change. */
  predicate KeyChanges(v: Value, secret: string)
    requires secret != ""
    decreases v
  {
    match v
    case Arr(items) => exists i :: 0 <= i < |items| && KeyChanges(items[i], secret)
    case Obj(fields) =>
      exists i :: 0 <= i < |fields| &&
        (Redact(fields[i].key, secret) != fields[i].key || KeyChanges(fields[i].value, secret))
    case _ => false
  }

  /** Rebuilds the tree the way the code rewrites it in place; a key that would change
      stops everything. */
  method RedactJsonValue(v: Value, secret: string) returns (r: Option<Value>)
    requires secret != ""
    ensures r == if KeyChanges(v, secret) then None else Some(Redacted(v, secret))
    decreases v
  {
    match v
    case Str(s) => return Some(Str(Redact(s, secret)));
    case Arr(items) =>
      var done := [];
      for i := 0 to |items|
        invariant |done| == i
        invariant forall k :: 0 <= k < i ==> !KeyChanges(items[k], secret) && done[k] == Redacted(items[k], secret)
      {
        var item := RedactJsonValue(items[i], secret);
        if item.None? {
          return None;
        }
        done := done + [item.value];
      }
      assert done == Redacted(v, secret).items;
      return Some(Arr(done));
    case Obj(fields) =>
      var done := [];
      for i := 0 to |fields|
        invariant |done| == i
        invariant forall k :: 0 <= k < i ==>
                  Redact(fields[k].key, secret) == fields[k].key && !KeyChanges(fields[k].value, secret)
        invariant forall k :: 0 <= k < i ==> done[k] == Field(fields[k].key, Redacted(fields[k].value, secret))
      {
        if Redact(fields[i].key, secret) != fields[i].key {
          return None;
        }
        var value := RedactJsonValue(fields[i].value, secret);
        if value.None? {
          return None;
        }
        done := done + [Field(fields[i].key, value.value)];
      }
      assert done == Redacted(v, secret).fields;
      return Some(Obj(done));
    case _ => return Some(v);
  }

  /** Some key at any depth contains the secret. */
  ghost predicate KeyLeaks(v: Value, secret: string)
    decreases v
  {
    match v
    case Arr(items) => exists i :: 0 <= i < |items| && KeyLeaks(items[i], secret)
    case Obj(fields) =>
      exists i :: 0 <= i < |fields| && (Contains(fields[i].key, secret) || KeyLeaks(fields[i].value, secret))
    case _ => false
  }

  /** No string and no key contains the secret. */
  ghost predicate Clean(v: Value, secret: string)
    decreases v
  {
    match v
    case Str(s) => !Contains(s, secret)
    case Arr(items) => forall i :: 0 <= i < |items| ==> Clean(items[i], secret)
    case Obj(fields) => forall i :: 0 <= i < |fields| ==>
        !Contains(fields[i].key, secret) && Clean(fields[i].value, secret)
    case _ => true
  }

  /** The same tree but for strings that contained the secret. */
  ghost predicate SameButSecrets(v: Value, w: Value, secret: string)
    decreases v
  {
    match v
    case Str(s) => w.Str? && (!Contains(s, secret) ==> w.s == s)
    case Arr(items) => w.Arr? && |w.items| == |items| && forall i :: 0 <= i < |items| ==>
        SameButSecrets(items[i], w.items[i], secret)
    case Obj(fields) => w.Obj? && |w.fields| == |fields| && forall i :: 0 <= i < |fields| ==>
        w.fields[i].key == fields[i].key && SameButSecrets(fields[i].value, w.fields[i].value, secret)
    case _ => w == v
  }

  lemma KeyTest(key: string, secret: string)
    requires Usable(secret)
    ensures Redact(key, secret) != key <==> Contains(key, secret)
  {
    RedactedTextIsClean(key, secret);
    if !Contains(key, secret) {
      CleanTextStays(key, secret);
    }
  }

  /** It fails exactly when some key contains the secret. */
  lemma {:induction false} FailsIffAKeyLeaks(v: Value, secret: string)
    requires Usable(secret)
    ensures KeyChanges(v, secret) <==> KeyLeaks(v, secret)
    decreases v
  {
    match v
    case Arr(items) =>
      forall i | 0 <= i < |items|
        ensures KeyChanges(items[i], secret) <==> KeyLeaks(items[i], secret)
      {
        FailsIffAKeyLeaks(items[i], secret);
      }
    case Obj(fields) =>
      forall i | 0 <= i < |fields|
        ensures Redact(fields[i].key, secret) != fields[i].key <==> Contains(fields[i].key, secret)
        ensures KeyChanges(fields[i].value, secret) <==> KeyLeaks(fields[i].value, secret)
      {
        KeyTest(fields[i].key, secret);
        FailsIffAKeyLeaks(fields[i].value, secret);
      }
    case _ =>
  }

  /** On success no string or key contains the secret, and shape, keys, numbers and clean
      strings are unchanged. */
  lemma {:induction false} SuccessIsClean(v: Value, secret: string)
    requires Usable(secret) && !KeyChanges(v, secret)
    ensures Clean(Redacted(v, secret), secret) && SameButSecrets(v, Redacted(v, secret), secret)
    decreases v
  {
    var w := Redacted(v, secret);
    match v
    case Str(s) =>
      RedactedTextIsClean(s, secret);
      if !Contains(s, secret) {
        CleanTextStays(s, secret);
      }
    case Arr(items) =>
      forall i | 0 <= i < |items|
        ensures Clean(w.items[i], secret) && SameButSecrets(items[i], w.items[i], secret)
      {
        SuccessIsClean(items[i], secret);
      }
    case Obj(fields) =>
      forall i | 0 <= i < |fields|
        ensures !Contains(w.fields[i].key, secret) && Clean(w.fields[i].value, secret)
        ensures w.fields[i].key == fields[i].key && SameButSecrets(fields[i].value, w.fields[i].value, secret)
      {
        KeyTest(fields[i].key, secret);
        SuccessIsClean(fields[i].value, secret);
      }
    case _ =>
  }
}
