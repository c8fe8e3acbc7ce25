/** Truncating an error text to 4096 bytes without breaking its encoding
    (agenttools/effect_completion.go). The encoding is that of section 3 of RFC 3629.
 */
module Utf8 {
  import opened Orders

  type Byte = b: int | 0 <= b < 256

  type Bytes = seq<Byte>

  predicate Tail(b: Byte) {
    0x80 <= b <= 0xBF
  }

  /** utf8.RuneStart */
  predicate RuneStart(b: Byte) {
    !Tail(b)
  }

  predicate TailsFrom(s: Bytes, from: nat, to: nat)
    requires to <= |s|
  {
    forall i :: from <= i < to ==> Tail(s[i])
  }

  /** The length of the character the bytes begin with, 0 if they begin with none. */
  function CharLength(s: Bytes): (n: nat)
    ensures n <= 4 && n <= |s|
    ensures n > 0 ==> RuneStart(s[0]) && TailsFrom(s, 1, n)
  {
    if |s| == 0 then 0
    else if s[0] <= 0x7F then 1
    else if |s| >= 2 && 0xC2 <= s[0] <= 0xDF && Tail(s[1]) then 2
    else if |s| >= 3 && Three(s[0], s[1]) && Tail(s[2]) then 3
    else if |s| >= 4 && Four(s[0], s[1]) && Tail(s[2]) && Tail(s[3]) then 4
    else 0
  }

  predicate Three(a: Byte, b: Byte) {
    || (a == 0xE0 && 0xA0 <= b <= 0xBF) || (0xE1 <= a <= 0xEC && Tail(b)) || (a == 0xED && 0x80 <= b <= 0x9F)
    || (0xEE <= a <= 0xEF && Tail(b))
  }

  predicate Four(a: Byte, b: Byte) {
    (a == 0xF0 && 0x90 <= b <= 0xBF) || (0xF1 <= a <= 0xF3 && Tail(b)) || (a == 0xF4 && 0x80 <= b <= 0x8F)
  }

  /** utf8.Valid */
  predicate Valid(s: Bytes) {
    |s| == 0 || (CharLength(s) > 0 && Valid(s[CharLength(s)..]))
  }

  /** The character at the front does not depend on what follows it. */
  lemma CharLengthLocal(s: Bytes, end: nat)
    requires CharLength(s) > 0 && CharLength(s) <= end <= |s|
    ensures CharLength(s[..end]) == CharLength(s)
  {
  }

  /** Cutting valid text before the start of a character leaves valid text. */
  lemma {:induction false} CutIsValid(s: Bytes, end: nat)
    requires Valid(s) && end <= |s| && (end < |s| ==> RuneStart(s[end]))
    ensures Valid(s[..end])
    decreases |s|
  {
    if end == 0 {
    } else {
      var n := CharLength(s);
      assert forall i :: 1 <= i < n ==> Tail(s[i]);
      assert end >= n;
      var rest := s[n..];
      assert end < |s| ==> rest[end - n] == s[end];
      CutIsValid(rest, end - n);
      CharLengthLocal(s, end);
      assert s[..end][n..] == rest[..end - n];
    }
  }

  /** In valid text a character starts within any four bytes. */
  lemma {:induction false} StartNearby(s: Bytes, at: nat) returns (start: nat)
    requires Valid(s) && at < |s|
    ensures start <= at < start + 4 && RuneStart(s[start]) && TailsFrom(s, start + 1, at + 1)
    decreases |s|
  {
    var n := CharLength(s);
    if at < n {
      start := 0;
    } else {
      var rest := s[n..];
      var k := StartNearby(rest, at - n);
      start := k + n;
      forall i | start + 1 <= i < at + 1 ensures Tail(s[i]) {
        assert s[i] == rest[i - n];
      }
      assert s[start] == rest[k];
    }
  }

  const LIMIT := 4096

  /** The position the truncation loop stops at; None when it runs off the front, where the
      source would index position -1. */
  method CutPoint(s: Bytes) returns (end: Option<nat>)
    requires |s| > LIMIT
    ensures end.None? <==> forall i :: 0 <= i <= LIMIT ==> Tail(s[i])
    ensures end.Some? ==> end.value <= LIMIT && RuneStart(s[end.value]) && TailsFrom(s, end.value + 1, LIMIT + 1)
  {
    var e := LIMIT;
    while !RuneStart(s[e])
      invariant 0 <= e <= LIMIT && TailsFrom(s, e + 1, LIMIT + 1)
      decreases e
    {
      if e == 0 {
        return None;
      }
      e := e - 1;
    }
    end := Some(e);
  }

  /** The first LIMIT + 1 bytes are all continuation bytes. */
  predicate RunsOff(s: Bytes) {
    |s| > LIMIT && TailsFrom(s, 0, LIMIT + 1)
  }

  /** A text of stray continuation bytes runs the loop off the front; no valid text does. */
  lemma StrayTailsRunOff(n: nat)
    requires n > LIMIT
    ensures RunsOff(seq(n, _ => 0x80)) && !Valid(seq(n, _ => 0x80))
  {
    assert CharLength(seq(n, _ => 0x80)) == 0;
  }

  /** Truncate: None is the panic. Valid text never panics, stays valid, and loses no more than
      three bytes below the limit. */
  method Truncate(s: Bytes) returns (r: Option<Bytes>)
    ensures r.None? <==> RunsOff(s)
    ensures r.Some? ==> r.value <= s && |r.value| <= LIMIT && (|s| <= LIMIT ==> r.value == s)
    ensures Valid(s) ==> r.Some? && Valid(r.value) && (|s| > LIMIT ==> |r.value| > LIMIT - 4)
  {
    if |s| <= LIMIT {
      return Some(s);
    }
    var end := CutPoint(s);
    if Valid(s) {
      ghost var start := StartNearby(s, LIMIT);
      assert end.Some?;
      assert end.value >= start;
      CutIsValid(s, end.value);
    }
    if end.None? {
      return None;
    }
    return Some(s[..end.value]);
  }

  datatype Failure = Failure(name: string, exitCode: int, error: Bytes, output: Bytes, sha: string)

  /** validFailedEffectResult */
  predicate ValidFailure(name: string, f: Failure, sha: Bytes -> string) {
    f.name == name && f.exitCode == -1 && 1 <= |f.error| <= LIMIT && Valid(f.error) && f.sha == sha(f.output)
  }

  /** failedEffectResult: the result for a nonempty, validly encoded error always passes the
      validator that guards its replay. */
  method FailedEffectResult(name: string, output: Bytes, error: Bytes, sha: Bytes -> string)
    returns (f: Option<Failure>)
    ensures f.None? <==> RunsOff(error)
    ensures f.Some? ==> f.value.error <= error && f.value.output == output
    ensures Valid(error) && |error| > 0 ==> f.Some? && ValidFailure(name, f.value, sha)
  {
    var text := Truncate(error);
    if text.None? {
      return None;
    }
    return Some(Failure(name, -1, text.value, output, sha(output)));
  }
}
