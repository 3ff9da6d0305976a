/**
 * The few JavaScript string operations the action relies on:
 * `String.prototype.split` with a one-character separator and
 * `toUpperCase` / `toLowerCase`. `Join`, the inverse of `split`, is not
 * used by the action; it builds argument strings from tokens in the lemmas.
 */
module JsText {

  import opened Wrappers

  /** `s.split(sep)`: the maximal runs between occurrences of `sep`, in order.
      Like JavaScript, it never returns an empty array: `"".split(sep)` is `[""]`. */
  function Split(s: string, sep: char): (parts: seq<string>)
    ensures |parts| >= 1
    ensures forall i :: 0 <= i < |parts| ==> sep !in parts[i]
  {
    if s == [] then [""]
    else
      var rest := Split(s[1..], sep);
      if s[0] == sep then [""] + rest
      else [[s[0]] + rest[0]] + rest[1..]
  }

  /** A character absent from a string is absent from every piece of its split. */
  lemma {:induction false} SplitKeepsAbsent(s: string, sep: char, c: char)
    requires c !in s
    ensures forall i :: 0 <= i < |Split(s, sep)| ==> c !in Split(s, sep)[i]
  {
    if s != [] {
      assert s[0] != c && c !in s[1..];
      SplitKeepsAbsent(s[1..], sep, c);
      var rest := Split(s[1..], sep);
      if s[0] != sep {
        assert c !in [s[0]] + rest[0];
      }
    }
  }

  /** `parts.join(sep)`, the inverse of `Split`. */
  function Join(parts: seq<string>, sep: char): string
  {
    if parts == [] then ""
    else if |parts| == 1 then parts[0]
    else parts[0] + [sep] + Join(parts[1..], sep)
  }

  /** The element at index `i`, or `undefined` past the end, as `a[i]` reads it. */
  function At(parts: seq<string>, i: nat): Option<string>
  {
    if i < |parts| then Some(parts[i]) else None
  }

  /** Joining the pieces of a split gives back the original string. */
  lemma {:induction false} JoinSplit(s: string, sep: char)
    ensures Join(Split(s, sep), sep) == s
  {
    if s != [] {
      var rest := Split(s[1..], sep);
      JoinSplit(s[1..], sep);
      if s[0] == sep {
        assert Split(s, sep) == [""] + rest;
        assert Join([""] + rest, sep) == "" + [sep] + Join(rest, sep);
        assert s == [s[0]] + s[1..];
      } else {
        var parts := Split(s, sep);
        assert parts == [[s[0]] + rest[0]] + rest[1..];
        if |rest| == 1 {
          assert Join(parts, sep) == [s[0]] + rest[0];
        } else {
          assert Join(rest, sep) == rest[0] + [sep] + Join(rest[1..], sep);
          assert parts[1..] == rest[1..];
          assert Join(parts, sep) == [s[0]] + rest[0] + [sep] + Join(rest[1..], sep);
        }
        assert s == [s[0]] + s[1..];
      }
    }
  }

  /** A prefix without the separator becomes the start of the first piece. */
  lemma {:induction false} SplitPrefix(x: string, r: string, sep: char)
    requires sep !in x
    ensures Split(x + r, sep) == [x + Split(r, sep)[0]] + Split(r, sep)[1..]
  {
    if x != [] {
      assert (x + r)[1..] == x[1..] + r;
      assert (x + r)[0] == x[0];
      SplitPrefix(x[1..], r, sep);
      assert [x[0]] + (x[1..] + Split(r, sep)[0]) == x + Split(r, sep)[0];
    } else {
      var parts := Split(r, sep);
      assert x + r == r;
      assert x + parts[0] == parts[0];
      assert parts == [parts[0]] + parts[1..];
    }
  }

  /** Splitting a join of separator-free pieces gives back the pieces. */
  lemma {:induction false} SplitJoin(parts: seq<string>, sep: char)
    requires |parts| >= 1
    requires forall i :: 0 <= i < |parts| ==> sep !in parts[i]
    ensures Split(Join(parts, sep), sep) == parts
  {
    if |parts| == 1 {
      SplitPrefix(parts[0], "", sep);
      assert parts[0] + "" == parts[0];
      assert Split("", sep) == [""];
    } else {
      var tail := Join(parts[1..], sep);
      SplitJoin(parts[1..], sep);
      assert Join(parts, sep) == parts[0] + ([sep] + tail);
      SplitPrefix(parts[0], [sep] + tail, sep);
      assert ([sep] + tail)[1..] == tail;
      assert Split([sep] + tail, sep) == [""] + parts[1..];
      assert parts[0] + "" == parts[0];
    }
  }

  /** `c.toUpperCase()` on the ASCII letters. */
  function UpperChar(c: char): char
  {
    if 'a' <= c <= 'z' then (c as int - 'a' as int + 'A' as int) as char else c
  }

  /** `c.toLowerCase()` on the ASCII letters. */
  function LowerChar(c: char): char
  {
    if 'A' <= c <= 'Z' then (c as int - 'A' as int + 'a' as int) as char else c
  }

  function ToUpper(s: string): string
  {
    seq(|s|, i requires 0 <= i < |s| => UpperChar(s[i]))
  }

  function ToLower(s: string): string
  {
    seq(|s|, i requires 0 <= i < |s| => LowerChar(s[i]))
  }

  /** Upper-casing and lower-casing identify exactly the same pairs of characters. */
  lemma CaseFoldAgree(c: char, d: char)
    ensures UpperChar(c) == UpperChar(d) <==> LowerChar(c) == LowerChar(d)
  {
  }

  /** Comparing upper-cased strings is comparing them ignoring case. */
  lemma {:induction false} UpperEqualIffLowerEqual(s: string, t: string)
    ensures ToUpper(s) == ToUpper(t) <==> ToLower(s) == ToLower(t)
  {
    if |s| == |t| {
      forall i | 0 <= i < |s|
        ensures ToUpper(s)[i] == ToUpper(t)[i] <==> ToLower(s)[i] == ToLower(t)[i]
      {
        CaseFoldAgree(s[i], t[i]);
      }
      if ToUpper(s) != ToUpper(t) {
        var i :| 0 <= i < |s| && ToUpper(s)[i] != ToUpper(t)[i];
        assert ToLower(s)[i] != ToLower(t)[i];
      }
      if ToLower(s) != ToLower(t) {
        var i :| 0 <= i < |s| && ToLower(s)[i] != ToLower(t)[i];
        assert ToUpper(s)[i] != ToUpper(t)[i];
      }
    } else {
      assert |ToUpper(s)| != |ToUpper(t)|;
      assert |ToLower(s)| != |ToLower(t)|;
    }
  }
}
