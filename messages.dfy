/**
 * MessageHelper: placeholder substitution and the blank-message guard, and
 * an outbox standing for the chat each player receives.
 */
module Messages {
  import opened Wrappers
  import opened Host

  // ---------------------------------------------------------------------
  // String.replace

  /** `t` occurs in `s` starting at index `i`. */
  predicate OccursAt(s: string, t: string, i: int) {
    0 <= i && i + |t| <= |s| && s[i..i + |t|] == t
  }

  predicate Occurs(s: string, t: string) {
    exists i :: 0 <= i <= |s| && OccursAt(s, t, i)
  }

  /**
   * Java's `String.replace(target, replacement)` for a non-empty target:
   * the occurrences of `target` found scanning left to right, each search
   * resuming after the previous match, are replaced by `repl`.
   */
  function Replace(s: string, target: string, repl: string): (r: string)
    requires |target| > 0
    ensures |s| < |target| ==> r == s
    ensures |repl| == |target| ==> |r| == |s|
    ensures |repl| <= |target| ==> |r| <= |s|
    decreases |s|
  {
    if |s| < |target| then s
    else if s[..|target|] == target then repl + Replace(s[|target|..], target, repl)
    else [s[0]] + Replace(s[1..], target, repl)
  }

  lemma OccursInTail(s: string, t: string, i: int)
    requires |s| > 0 && OccursAt(s[1..], t, i)
    ensures OccursAt(s, t, i + 1)
  {
    assert s[1..][i..i + |t|] == s[i + 1..i + 1 + |t|];
  }

  /** A string without an occurrence of the target is returned unchanged. */
  lemma {:induction false} ReplaceAbsent(s: string, t: string, r: string)
    requires |t| > 0 && !Occurs(s, t)
    ensures Replace(s, t, r) == s
    decreases |s|
  {
    if |s| >= |t| {
      assert !OccursAt(s, t, 0);
      assert s[0..0 + |t|] == s[..|t|];
      forall i | OccursAt(s[1..], t, i) ensures false {
        OccursInTail(s, t, i);
      }
      ReplaceAbsent(s[1..], t, r);
      assert [s[0]] + s[1..] == s;
    }
  }

  /** Replacing a target by itself changes nothing. */
  lemma {:induction false} ReplaceBySelf(s: string, t: string)
    requires |t| > 0
    ensures Replace(s, t, t) == s
    decreases |s|
  {
    if |s| >= |t| {
      if s[..|t|] == t {
        ReplaceBySelf(s[|t|..], t);
        assert s[..|t|] + s[|t|..] == s;
      } else {
        ReplaceBySelf(s[1..], t);
        assert [s[0]] + s[1..] == s;
      }
    }
  }

  // ---------------------------------------------------------------------
  // MessageHelper.format

  /** The placeholder `{key}` for a key. */
  function Placeholder(key: string): (p: string)
    ensures |p| == |key| + 2 && p[0] == '{' && p[|p| - 1] == '}'
  {
    "{" + key + "}"
  }

  /**
   * The specification of `format`: the pairs `(reps[0], reps[1])`,
   * `(reps[2], reps[3])`, ... are substituted one after another, each on
   * the output of the previous one; a trailing key without a value is
   * ignored.
   */
  function ApplyPairs(m: string, reps: seq<string>): string
    decreases |reps|
  {
    if |reps| < 2 then m
    else ApplyPairs(Replace(m, Placeholder(reps[0]), reps[1]), reps[2..])
  }

  /** MessageHelper.format: the loop stepping through the pairs two at a time. */
  method Format(message: string, replacements: seq<string>) returns (result: string)
    ensures result == ApplyPairs(message, replacements)
    ensures |replacements| < 2 ==> result == message
  {
    result := message;
    var i := 0;
    while i < |replacements|
      invariant 0 <= i <= |replacements| + 1 && i % 2 == 0
      invariant i <= |replacements| ==> ApplyPairs(result, replacements[i..]) == ApplyPairs(message, replacements)
      invariant i > |replacements| ==> result == ApplyPairs(message, replacements)
      decreases |replacements| - i
    {
      if i + 1 < |replacements| {
        assert replacements[i..][2..] == replacements[i + 2..];
        result := Replace(result, Placeholder(replacements[i]), replacements[i + 1]);
      }
      i := i + 2;
    }
    if i == |replacements| {
      assert replacements[i..] == [];
    }
  }

  /** A trailing key with no value does not change the result. */
  lemma {:induction false} TrailingKeyIgnored(m: string, reps: seq<string>, key: string)
    requires |reps| % 2 == 0
    ensures ApplyPairs(m, reps + [key]) == ApplyPairs(m, reps)
    decreases |reps|
  {
    if |reps| >= 2 {
      assert (reps + [key])[2..] == reps[2..] + [key];
      TrailingKeyIgnored(Replace(m, Placeholder(reps[0]), reps[1]), reps[2..], key);
    }
  }

  /** Pairs are applied in order: later pairs see the output of earlier ones. */
  lemma {:induction false} ApplyPairsSequential(m: string, first: seq<string>, rest: seq<string>)
    requires |first| % 2 == 0
    ensures ApplyPairs(m, first + rest) == ApplyPairs(ApplyPairs(m, first), rest)
    decreases |first|
  {
    if |first| >= 2 {
      assert (first + rest)[2..] == first[2..] + rest;
      ApplyPairsSequential(Replace(m, Placeholder(first[0]), first[1]), first[2..], rest);
    } else {
      assert first == [];
      assert first + rest == rest;
    }
  }

  /** A template mentioning none of the keys' placeholders is returned unchanged. */
  lemma {:induction false} ApplyPairsAbsent(m: string, reps: seq<string>)
    requires forall i :: 0 <= i < |reps| && i % 2 == 0 ==> !Occurs(m, Placeholder(reps[i]))
    ensures ApplyPairs(m, reps) == m
    decreases |reps|
  {
    if |reps| >= 2 {
      ReplaceAbsent(m, Placeholder(reps[0]), reps[1]);
      forall i | 0 <= i < |reps[2..]| && i % 2 == 0
        ensures !Occurs(m, Placeholder(reps[2..][i]))
      {
        assert reps[2..][i] == reps[i + 2];
      }
      ApplyPairsAbsent(m, reps[2..]);
    }
  }

  // ---------------------------------------------------------------------
  // MessageHelper.sendMessage

  /** Java's space test in `String.trim`: every character up to U+0020. */
  predicate IsSpace(c: char) {
    c <= ' '
  }

  predicate IsBlank(s: string) {
    forall i :: 0 <= i < |s| ==> IsSpace(s[i])
  }

  function TrimStart(s: string): string {
    if |s| > 0 && IsSpace(s[0]) then TrimStart(s[1..]) else s
  }

  function TrimEnd(s: string): string {
    if |s| > 0 && IsSpace(s[|s| - 1]) then TrimEnd(s[..|s| - 1]) else s
  }

  /** The number of spaces `TrimStart` drops. */
  function LeadingSpaces(s: string): nat
    decreases |s|
  {
    if |s| > 0 && IsSpace(s[0]) then 1 + LeadingSpaces(s[1..]) else 0
  }

  /**
   * `String.trim`: the slice of `s` between a run of leading spaces and a run
   * of trailing spaces, starting and ending with a non-space; empty exactly
   * when `s` is all spaces.
   */
  function Trim(s: string): (r: string)
    ensures LeadingSpaces(s) + |r| <= |s|
    ensures r == s[LeadingSpaces(s)..LeadingSpaces(s) + |r|]
    ensures forall k :: 0 <= k < LeadingSpaces(s) ==> IsSpace(s[k])
    ensures forall k :: LeadingSpaces(s) + |r| <= k < |s| ==> IsSpace(s[k])
    ensures r != [] ==> !IsSpace(r[0]) && !IsSpace(r[|r| - 1])
    ensures r == [] <==> IsBlank(s)
  {
    var t := TrimStart(s);
    TrimStartSuffix(s);
    TrimStartEmpty(s);
    TrimEndPrefix(t);
    TrimEndKeepsHead(t);
    var r := TrimEnd(t);
    var i := LeadingSpaces(s);
    assert r == s[i..i + |r|] by {
      assert t == s[i..] && r == t[..|r|];
      assert s[i..][..|r|] == s[i..i + |r|];
    }
    assert forall k :: i + |r| <= k < |s| ==> IsSpace(s[k]) by {
      forall k | i + |r| <= k < |s| ensures IsSpace(s[k]) {
        assert s[k] == t[k - i];
      }
    }
    r
  }

  /** `TrimStart` drops exactly the leading spaces. */
  lemma {:induction false} TrimStartSuffix(s: string)
    ensures LeadingSpaces(s) <= |s| && TrimStart(s) == s[LeadingSpaces(s)..]
    ensures forall k :: 0 <= k < LeadingSpaces(s) ==> IsSpace(s[k])
  {
    if |s| > 0 && IsSpace(s[0]) {
      TrimStartSuffix(s[1..]);
      assert s[1..][LeadingSpaces(s[1..])..] == s[LeadingSpaces(s)..];
      forall k | 0 < k < LeadingSpaces(s) ensures IsSpace(s[k]) {
        assert s[k] == s[1..][k - 1];
      }
    }
  }

  /** `TrimEnd` drops a run of trailing spaces and leaves no space at the end. */
  lemma {:induction false} TrimEndPrefix(t: string)
    ensures |TrimEnd(t)| <= |t| && TrimEnd(t) == t[..|TrimEnd(t)|]
    ensures forall k :: |TrimEnd(t)| <= k < |t| ==> IsSpace(t[k])
    ensures TrimEnd(t) != [] ==> !IsSpace(TrimEnd(t)[|TrimEnd(t)| - 1])
  {
    if |t| > 0 && IsSpace(t[|t| - 1]) {
      var u := t[..|t| - 1];
      TrimEndPrefix(u);
      assert u[..|TrimEnd(t)|] == t[..|TrimEnd(t)|];
      forall k | |TrimEnd(t)| <= k < |t| - 1 ensures IsSpace(t[k]) {
        assert t[k] == u[k];
      }
    }
  }

  lemma {:induction false} TrimStartEmpty(s: string)
    ensures TrimStart(s) == [] <==> IsBlank(s)
    ensures TrimStart(s) != [] ==> !IsSpace(TrimStart(s)[0])
  {
    if |s| > 0 && IsSpace(s[0]) {
      TrimStartEmpty(s[1..]);
      if IsBlank(s[1..]) {
        forall i | 0 <= i < |s| ensures IsSpace(s[i]) {
          if i > 0 { assert s[i] == s[1..][i - 1]; }
        }
      }
    }
  }

  lemma {:induction false} TrimEndKeepsHead(s: string)
    ensures |s| > 0 && !IsSpace(s[0]) ==> TrimEnd(s) != []
  {
    if |s| > 0 && IsSpace(s[|s| - 1]) {
      TrimEndKeepsHead(s[..|s| - 1]);
    }
  }

  /** The guard of `sendMessage`: nothing is sent for a null or blank message. */
  function ShouldSend(message: Option<string>): (b: bool)
    ensures b <==> message.Some? && !IsBlank(message.value)
  {
    if message.None? then false
    else
      Trim(message.value) != []
  }

  /** A message delivered to a player (colour codes are not translated in this model). */
  datatype Delivery = Delivery(player: PlayerId, text: string)

  /** What `sendMessage(player, message)` delivers. */
  function Deliveries(player: PlayerId, message: Option<string>): seq<Delivery> {
    if ShouldSend(message) then [Delivery(player, message.value)] else []
  }

  /** The chat windows of all players, in delivery order. */
  class Outbox {
    var sent: seq<Delivery>

    constructor ()
      ensures sent == []
    {
      sent := [];
    }

    /** MessageHelper.sendMessage */
    method SendMessage(player: PlayerId, message: Option<string>)
      modifies this
      ensures sent == old(sent) + Deliveries(player, message)
      ensures sent == old(sent) <==> message.None? || IsBlank(message.value)
    {
      if ShouldSend(message) {
        sent := sent + [Delivery(player, message.value)];
      }
    }
  }

  // ---------------------------------------------------------------------
  // String.valueOf(int)

  predicate IsDigit(c: char) {
    '0' <= c <= '9'
  }

  function DigitChar(d: nat): (c: char)
    requires d < 10
    ensures IsDigit(c) && c as int - '0' as int == d
  {
    ('0' as int + d) as char
  }

  /** Reads a string of decimal digits, most significant first. */
  function ParseNat(s: string): int
    decreases |s|
  {
    if s == [] then 0 else ParseNat(s[..|s| - 1]) * 10 + (s[|s| - 1] as int - '0' as int)
  }

  /** Reads an optional minus sign followed by decimal digits. */
  function ParseInt(s: string): int {
    if |s| > 0 && s[0] == '-' then -ParseNat(s[1..]) else ParseNat(s)
  }

  /** The decimal digits of `n`, without leading zeros. */
  function NatToString(n: nat): (s: string)
    ensures |s| > 0 && (|s| > 1 ==> s[0] != '0')
    ensures forall i :: 0 <= i < |s| ==> IsDigit(s[i])
    ensures ParseNat(s) == n
  {
    if n < 10 then
      var s := [DigitChar(n)];
      assert s[..0] == [];
      s
    else
      var p := NatToString(n / 10);
      var s := p + [DigitChar(n % 10)];
      assert s[..|s| - 1] == p;
      assert s[0] == p[0];
      assert p[0] != '0' by {
        if |p| == 1 {
          assert p[..0] == [];
        }
      }
      s
  }

  /** `String.valueOf(n)`: decimal, with a leading minus sign for negatives; it reads back as `n`. */
  function IntToString(n: int): (s: string)
    ensures |s| > 0 && (s[0] == '-' <==> n < 0)
    ensures forall i :: (if n < 0 then 1 else 0) <= i < |s| ==> IsDigit(s[i])
    ensures var k := if n < 0 then 1 else 0; |s| > k && (|s| > k + 1 ==> s[k] != '0')
    ensures ParseInt(s) == n
  {
    if n < 0 then
      var d := NatToString(-n);
      var s := "-" + d;
      assert s[1..] == d;
      s
    else NatToString(n)
  }
}
