/**
 Python's `str.split(sep)` with an explicit one-character separator, and its inverse
 `sep.join(parts)`. Unlike the whitespace form, splitting on an explicit separator keeps
 empty fields, so the result always has at least one element.
 */
module Strings {

  /** `s.split(sep)` */
  function Split(s: string, sep: char): (r: seq<string>)
    ensures |r| >= 1
    ensures forall k :: 0 <= k < |r| ==> sep !in r[k]
  {
    if |s| == 0 then [""]
    else if s[0] == sep then [""] + Split(s[1..], sep)
    else
      var rest := Split(s[1..], sep);
      [[s[0]] + rest[0]] + rest[1..]
  }

  /** `sep.join(parts)` */
  function Join(parts: seq<string>, sep: char): string
  {
    if |parts| == 0 then ""
    else if |parts| == 1 then parts[0]
    else parts[0] + [sep] + Join(parts[1..], sep)
  }

  /** Joining the fields of a split gives back the original string. */
  lemma {:induction false} JoinSplit(s: string, sep: char)
    ensures Join(Split(s, sep), sep) == s
  {
    if |s| > 0 {
      JoinSplit(s[1..], sep);
      var rest := Split(s[1..], sep);
      if s[0] != sep {
        var r := Split(s, sep);
        if |rest| > 1 {
          assert r[1..] == rest[1..];
        }
      }
    }
  }

  /** Splitting the join of separator-free fields gives back those fields. */
  lemma {:induction false} SplitJoin(parts: seq<string>, sep: char)
    requires |parts| >= 1
    requires forall k :: 0 <= k < |parts| ==> sep !in parts[k]
    ensures Split(Join(parts, sep), sep) == parts
  {
    if |parts| == 1 {
      SplitField(parts[0], sep);
    } else {
      SplitJoin(parts[1..], sep);
      SplitFieldThenSep(parts[0], Join(parts[1..], sep), sep);
    }
  }

  /** A string without the separator splits into itself alone. */
  lemma {:induction false} SplitField(w: string, sep: char)
    requires sep !in w
    ensures Split(w, sep) == [w]
  {
    if |w| > 0 {
      SplitField(w[1..], sep);
      assert [w[0]] + w[1..] == w;
    }
  }

  /** A separator-free field followed by the separator splits off as the first field. */
  lemma {:induction false} SplitFieldThenSep(w: string, tail: string, sep: char)
    requires sep !in w
    ensures Split(w + [sep] + tail, sep) == [w] + Split(tail, sep)
  {
    if |w| == 0 {
      assert w + [sep] + tail == [sep] + tail;
      assert ([sep] + tail)[1..] == tail;
    } else {
      assert (w + [sep] + tail)[1..] == w[1..] + [sep] + tail;
      SplitFieldThenSep(w[1..], tail, sep);
      assert [w[0]] + w[1..] == w;
    }
  }

  /**
   The first field of a split is the longest separator-free prefix: it is a prefix of
   `s`, it holds no separator, and it ends where `s` ends or where a separator starts.
   */
  lemma {:induction false} FirstField(s: string, sep: char)
    ensures var h := Split(s, sep)[0];
      h <= s && sep !in h && (|h| == |s| || s[|h|] == sep)
  {
    if |s| > 0 && s[0] != sep {
      FirstField(s[1..], sep);
    }
  }
}
