// Shared vocabulary of the model: optional values, fallible results and the
// handful of Rust `str` operations the crate relies on (`starts_with`,
// `ends_with`, `contains`, `trim_end_matches`, `trim`, `lines`,
// `strip_prefix`, `join`).  Strings are sequences of characters; every byte
// the child process prints is treated as one character.

module Base {
  datatype Option<+T> = None | Some(value: T)

  /** `anyhow::Result` and friends: a value or an error message / error value. */
  datatype Result<+T, +E> = Ok(value: T) | Err(error: E)

  /** Taking one more element of a sequence appends that element. */
  lemma TakeOneMore<T>(s: seq<T>, k: nat)
    requires k < |s|
    ensures s[..k + 1] == s[..k] + [s[k]]
  {
  }

  lemma AppendAssoc<T>(a: seq<T>, b: seq<T>, c: seq<T>)
    ensures (a + b) + c == a + (b + c)
  {
  }

  lemma TakeTake<T>(s: seq<T>, k: nat, j: nat)
    requires k <= j <= |s|
    ensures s[..j][..k] == s[..k]
  {
  }
}

module Text {
  import opened Base

  predicate StartsWith(s: string, p: string) {
    |p| <= |s| && s[..|p|] == p
  }

  /** `a` is a prefix of `b` */
  predicate IsPrefix(a: string, b: string) {
    |a| <= |b| && b[..|a|] == a
  }

  predicate EndsWith(s: string, p: string) {
    |p| <= |s| && s[|s| - |p|..] == p
  }

  /** `p` occurs in `s` starting at index `i`. */
  predicate OccursAt(s: string, p: string, i: nat) {
    i + |p| <= |s| && s[i..i + |p|] == p
  }

  /** `str::contains` */
  predicate Contains(s: string, p: string) {
    exists i: nat | i <= |s| - |p| :: OccursAt(s, p, i)
  }

  lemma ContainsExtend(s: string, t: string, p: string)
    requires Contains(s, p)
    ensures Contains(s + t, p)
  {
    var i: nat :| i <= |s| - |p| && OccursAt(s, p, i);
    assert (s + t)[i..i + |p|] == s[i..i + |p|];
    assert OccursAt(s + t, p, i);
  }

  lemma EndsWithContains(s: string, p: string)
    requires EndsWith(s, p)
    ensures Contains(s, p)
  {
    assert OccursAt(s, p, |s| - |p|);
  }

  /** `t` is zero or more back-to-back copies of `p`. */
  predicate Repeats(t: string, p: string)
    decreases |t|
  {
    t == [] || (p != [] && StartsWith(t, p) && Repeats(t[|p|..], p))
  }

  lemma {:induction false} RepeatsAppend(t: string, p: string)
    requires p != [] && Repeats(t, p)
    ensures Repeats(t + p, p)
    decreases |t|
  {
    if t == [] {
      assert (t + p)[|p|..] == [];
    } else {
      assert (t + p)[..|p|] == t[..|p|];
      assert (t + p)[|p|..] == t[|p|..] + p;
      RepeatsAppend(t[|p|..], p);
    }
  }

  /** `str::trim_end_matches(p)`: strips EVERY trailing copy of `p`, not just one. */
  function TrimEnd(s: string, p: string): (r: string)
    ensures |r| <= |s| && r == s[..|r|]
    decreases |s|
  {
    if p != [] && EndsWith(s, p) then TrimEnd(s[..|s| - |p|], p) else s
  }

  /** The trimmed text no longer ends with `p`, and what was cut off is made
      of copies of `p` only. */
  lemma {:induction false} TrimEndSpec(s: string, p: string)
    ensures p != [] ==> !EndsWith(TrimEnd(s, p), p)
    ensures Repeats(s[|TrimEnd(s, p)|..], p)
    decreases |s|
  {
    if p != [] && EndsWith(s, p) {
      var t := s[..|s| - |p|];
      TrimEndSpec(t, p);
      var r := TrimEnd(t, p);
      assert TrimEnd(s, p) == r;
      assert t[|r|..] + p == s[|r|..];
      RepeatsAppend(t[|r|..], p);
    } else {
      assert TrimEnd(s, p) == s;
      assert s[|s|..] == [];
    }
  }

  lemma TrimEndNoMatch(s: string, p: string)
    requires !EndsWith(s, p)
    ensures TrimEnd(s, p) == s
  {
  }

  /** Rust's `char::is_whitespace` (the Unicode White_Space property). */
  predicate IsWhitespace(c: char) {
    ('\t' <= c <= '\r') || c == ' ' || c == '\U{0085}' || c == '\U{00A0}' || c == '\U{1680}'
    || ('\U{2000}' <= c <= '\U{200A}') || c == '\U{2028}' || c == '\U{2029}'
    || c == '\U{202F}' || c == '\U{205F}' || c == '\U{3000}'
  }

  /** `str::trim_start` */
  function TrimStart(s: string): (r: string)
    ensures |r| <= |s| && r == s[|s| - |r|..]
    ensures r == [] || !IsWhitespace(r[0])
    ensures forall k :: 0 <= k < |s| - |r| ==> IsWhitespace(s[k])
    decreases |s|
  {
    if s != [] && IsWhitespace(s[0]) then TrimStart(s[1..]) else s
  }

  /** `str::trim_end` */
  function TrimEndSpace(s: string): (r: string)
    ensures |r| <= |s| && r == s[..|r|]
    ensures r == [] || !IsWhitespace(r[|r| - 1])
    ensures forall k :: |r| <= k < |s| ==> IsWhitespace(s[k])
    decreases |s|
  {
    if s != [] && IsWhitespace(s[|s| - 1]) then TrimEndSpace(s[..|s| - 1]) else s
  }

  /** `str::trim`: no whitespace left at either end. */
  function Trim(s: string): (r: string)
    ensures r == [] || (!IsWhitespace(r[0]) && !IsWhitespace(r[|r| - 1]))
    ensures |r| <= |s|
  {
    TrimEndSpace(TrimStart(s))
  }

  /** Index of the first `c` in `s`, or `|s|` when there is none. */
  function IndexOf(s: string, c: char): (i: nat)
    ensures i <= |s|
    ensures i < |s| ==> s[i] == c
    ensures forall k :: 0 <= k < i ==> s[k] != c
    decreases |s|
  {
    if s == [] then 0 else if s[0] == c then 0 else 1 + IndexOf(s[1..], c)
  }

  /** Drops one trailing carriage return, as `str::lines` does before a line feed. */
  function DropCr(line: string): string {
    if line != [] && line[|line| - 1] == '\r' then line[..|line| - 1] else line
  }

  /**
   * `str::lines`: pieces between line feeds, a final line feed does not open
   * an empty last line, and no piece contains a line feed. A carriage return
   * is dropped only before a line feed; a last piece keeps a bare one.
   */
  function Lines(s: string): (r: seq<string>)
    ensures forall k :: 0 <= k < |r| ==> '\n' !in r[k]
    ensures s == [] <==> r == []
    decreases |s|
  {
    if s == [] then []
    else
      var i := IndexOf(s, '\n');
      if i == |s| then [s]
      else [DropCr(s[..i])] + Lines(s[i + 1..])
  }

  /** `str::strip_prefix` */
  function StripPrefix(s: string, p: string): (r: Option<string>)
    ensures r.Some? <==> StartsWith(s, p)
    ensures r.Some? ==> s == p + r.value
  {
    if StartsWith(s, p) then Some(s[|p|..]) else None
  }

  /** `[String]::join(sep)` */
  function Join(parts: seq<string>, sep: string): string
    decreases |parts|
  {
    if |parts| == 0 then []
    else if |parts| == 1 then parts[0]
    else parts[0] + sep + Join(parts[1..], sep)
  }

  /** Joining one more piece adds exactly one separator and the piece. */
  lemma {:induction false} JoinSnoc(parts: seq<string>, x: string, sep: string)
    requires parts != []
    ensures Join(parts + [x], sep) == Join(parts, sep) + sep + x
    decreases |parts|
  {
    if |parts| == 1 {
      assert parts + [x] == [parts[0], x];
    } else {
      assert (parts + [x])[1..] == parts[1..] + [x];
      JoinSnoc(parts[1..], x, sep);
    }
  }

  /** Decimal digits of a number, as `format!("{}")` writes it. */
  function Decimal(n: nat): (s: string)
    ensures s != [] && forall k :: 0 <= k < |s| ==> '0' <= s[k] <= '9'
  {
    var digit := ['0' + (n % 10) as char];
    if n < 10 then digit else Decimal(n / 10) + digit
  }

  /** Concatenation of a sequence of strings. */
  function Concat(parts: seq<string>): string
    decreases |parts|
  {
    if parts == [] then [] else Concat(parts[..|parts| - 1]) + parts[|parts| - 1]
  }
}
