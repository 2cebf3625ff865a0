/** The string operations the operator takes from Go's `strings`, `fmt` and label validation. */
module Text {

  /** `%d`. */
  function Itoa(n: int): (s: string)
    ensures s != ""
    decreases if n < 0 then 1 else 0, if n < 0 then -n else n
  {
    if n < 0 then "-" + Itoa(-n)
    else if n < 10 then [('0' as int + n) as char]
    else Itoa(n / 10) + Itoa(n % 10)
  }

  /** The number a string of digits stands for. */
  function ReadDigits(s: string): int {
    if s == "" then 0 else 10 * ReadDigits(s[..|s| - 1]) + (s[|s| - 1] as int - '0' as int)
  }

  predicate Digits(s: string) {
    s != "" && forall c | c in s :: '0' <= c <= '9'
  }

  /** What is printed are digits, after a minus sign for a negative number, and reads as the number. */
  lemma {:induction false} ItoaReads(n: int)
    ensures n >= 0 ==> Digits(Itoa(n)) && ReadDigits(Itoa(n)) == n
    ensures n < 0 ==> Itoa(n)[0] == '-' && Digits(Itoa(n)[1..]) && ReadDigits(Itoa(n)[1..]) == -n
    decreases if n < 0 then 1 else 0, if n < 0 then -n else n
  {
    if n < 0 {
      ItoaReads(-n);
    } else if n >= 10 {
      ItoaReads(n / 10);
      ItoaReads(n % 10);
      assert Itoa(n)[..|Itoa(n)| - 1] == Itoa(n / 10) && |Itoa(n % 10)| == 1;
      assert ReadDigits(Itoa(n % 10)) == n % 10;
    } else {
      assert Itoa(n)[..0] == "";
    }
  }

  /** The last element of `strings.Split(s, [c])`. */
  function LastPiece(s: string, c: char): (r: string)
    ensures c !in r
    ensures r == s || exists i | 0 <= i < |s| :: s[i] == c && r == s[i + 1..]
  {
    if s == "" then ""
    else if s[|s| - 1] == c then
      assert s[|s|..] == "";
      ""
    else
      var init, last := s[..|s| - 1], s[|s| - 1];
      assert s == init + [last];
      var r := LastPiece(init, c);
      if r == init then s
      else
        var i :| 0 <= i < |init| && init[i] == c && r == init[i + 1..];
        assert s[i] == c && (init + [last])[i + 1..] == init[i + 1..] + [last];
        r + [last]
  }

  /** `strings.ReplaceAll(s, old, "")` for a non-empty `old`. */
  function RemoveAll(s: string, old_: string): (r: string)
    requires old_ != ""
    ensures |r| <= |s|
  {
    if s == "" then ""
    else if old_ <= s then RemoveAll(s[|old_|..], old_)
    else [s[0]] + RemoveAll(s[1..], old_)
  }

  /** What follows the last separator; the whole string when there is none. */
  lemma {:induction false} LastPieceOf(front: string, c: char, tail: string)
    requires c !in tail
    ensures LastPiece(front + [c] + tail, c) == tail && LastPiece(tail, c) == tail
    decreases |tail|
  {
    var s := front + [c] + tail;
    if tail == "" {
      assert s[|s| - 1] == c;
    } else {
      var init := tail[..|tail| - 1];
      LastPieceOf(front, c, init);
      assert s[..|s| - 1] == front + [c] + init && tail == init + [tail[|tail| - 1]];
    }
  }

  predicate Occurs(old_: string, s: string) {
    exists i | 0 <= i <= |s| :: old_ <= s[i..]
  }

  /** A string without an occurrence is left as it is. */
  lemma {:induction false} RemoveAllNone(s: string, old_: string)
    requires old_ != "" && !Occurs(old_, s)
    ensures RemoveAll(s, old_) == s
    decreases |s|
  {
    if s != "" {
      assert s[0..] == s;
      forall i | 0 <= i <= |s[1..]|
        ensures !(old_ <= s[1..][i..])
      {
        assert s[1..][i..] == s[i + 1..];
      }
      RemoveAllNone(s[1..], old_);
    }
  }

  /** The first occurrence is cut out, and the rest is treated in the same way. */
  lemma {:induction false} RemoveAllFirst(front: string, old_: string, rest: string)
    requires old_ != "" && forall i | 0 <= i < |front| :: !(old_ <= (front + old_ + rest)[i..])
    ensures RemoveAll(front + old_ + rest, old_) == front + RemoveAll(rest, old_)
    decreases |front|
  {
    var s := front + old_ + rest;
    if front == "" {
      assert s == old_ + rest && s[|old_|..] == rest;
    } else {
      assert s[0..] == s && s[1..] == front[1..] + old_ + rest;
      forall i | 0 <= i < |front[1..]|
        ensures !(old_ <= (front[1..] + old_ + rest)[i..])
      {
        assert s[1..][i..] == s[i + 1..];
      }
      RemoveAllFirst(front[1..], old_, rest);
    }
  }

  /** `strings.TrimSuffix(s, suffix)`. */
  function TrimSuffix(s: string, suffix: string): string {
    if |suffix| <= |s| && s[|s| - |suffix|..] == suffix then s[..|s| - |suffix|] else s
  }

  /** The parts with one separator between neighbours. */
  function Join(parts: seq<string>, separator: string): string {
    if parts == [] then ""
    else if |parts| == 1 then parts[0]
    else Join(parts[..|parts| - 1], separator) + separator + parts[|parts| - 1]
  }

  /** Every part followed by a terminator: what `acc = acc + part + terminator` builds. */
  function Terminated(parts: seq<string>, terminator: string): string {
    if parts == [] then ""
    else Terminated(parts[..|parts| - 1], terminator) + parts[|parts| - 1] + terminator
  }

  lemma TerminatedSnoc(parts: seq<string>, part: string, terminator: string)
    ensures Terminated(parts + [part], terminator) == Terminated(parts, terminator) + part + terminator
  {
    assert (parts + [part])[..|parts|] == parts;
  }

  lemma {:induction false} TerminatedIsJoined(parts: seq<string>, separator: string)
    ensures parts == [] ==> Terminated(parts, separator) == ""
    ensures parts != [] ==> Terminated(parts, separator) == Join(parts, separator) + separator
  {
    if |parts| > 1 {
      TerminatedIsJoined(parts[..|parts| - 1], separator);
    }
  }

  /** Accumulating terminated parts and trimming once is joining. */
  lemma {:induction false} TrimmedIsJoined(parts: seq<string>, separator: string)
    ensures TrimSuffix(Terminated(parts, separator), separator) == Join(parts, separator)
  {
    TerminatedIsJoined(parts, separator);
    if parts != [] {
      var joined := Join(parts, separator);
      assert (joined + separator)[|joined|..] == separator;
      assert (joined + separator)[..|joined|] == joined;
    }
  }

  predicate LowerAlphanumeric(c: char) {
    'a' <= c <= 'z' || '0' <= c <= '9'
  }

  /** A DNS label: at most 63 lower-case letters, digits and '-', with no '-' at either end. */
  predicate IsDnsLabel(s: string) {
    && 0 < |s| <= 63
    && LowerAlphanumeric(s[0])
    && LowerAlphanumeric(s[|s| - 1])
    && forall i | 0 <= i < |s| :: LowerAlphanumeric(s[i]) || s[i] == '-'
  }
}
