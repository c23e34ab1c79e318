/** Splitting a string on a one-character separator, as Go's strings.Split does,
    and the join that undoes it. */
module Strings {

  /** The pieces of `s` between occurrences of `sep`. Like Go's strings.Split,
      the empty string gives one empty piece, and adjacent or trailing
      separators give empty pieces. */
  function Split(s: string, sep: char): (r: seq<string>)
    ensures |r| >= 1
    ensures |r| == Count(s, sep) + 1
    decreases |s|
  {
    if s == [] then [""]
    else
      var rest := Split(s[1..], sep);
      if s[0] == sep then [""] + rest
      else [[s[0]] + rest[0]] + rest[1..]
  }

  /** Go's strings.Join with a one-character separator. */
  function Join(parts: seq<string>, sep: char): string
    decreases |parts|
  {
    if parts == [] then ""
    else if |parts| == 1 then parts[0]
    else parts[0] + [sep] + Join(parts[1..], sep)
  }

  /** The number of occurrences of `c` in `s`. */
  function Count(s: string, c: char): nat
    decreases |s|
  {
    if s == [] then 0 else (if s[0] == c then 1 else 0) + Count(s[1..], c)
  }

  lemma {:induction false} CountZero(s: string, c: char)
    ensures Count(s, c) == 0 <==> c !in s
    decreases |s|
  {
    if s != [] {
      CountZero(s[1..], c);
      assert s == [s[0]] + s[1..];
    }
  }

  /** Splitting yields at least two pieces exactly when the separator occurs. */
  lemma SplitHasTwoFields(s: string, sep: char)
    ensures |Split(s, sep)| >= 2 <==> sep in s
  {
    CountZero(s, sep);
  }

  /** No piece contains the separator. */
  lemma {:induction false} SplitPiecesAreSeparatorFree(s: string, sep: char)
    ensures forall i :: 0 <= i < |Split(s, sep)| ==> sep !in Split(s, sep)[i]
    decreases |s|
  {
    if s != [] {
      SplitPiecesAreSeparatorFree(s[1..], sep);
    }
  }

  /** Joining the pieces gives back the original string. */
  lemma {:induction false} JoinSplit(s: string, sep: char)
    ensures Join(Split(s, sep), sep) == s
    decreases |s|
  {
    if s != [] {
      var rest := Split(s[1..], sep);
      JoinSplit(s[1..], sep);
      if s[0] == sep {
        assert Split(s, sep) == [""] + rest;
        assert ([""] + rest)[1..] == rest;
      } else {
        var r := Split(s, sep);
        assert r == [[s[0]] + rest[0]] + rest[1..];
        if |rest| == 1 {
          assert r == [[s[0]] + rest[0]];
        } else {
          assert r[1..] == rest[1..];
          assert Join(rest, sep) == rest[0] + [sep] + Join(rest[1..], sep);
        }
      }
    }
  }

  /** Splitting a word free of the separator followed by the separator and a
      tail gives that word followed by the tail's pieces. */
  lemma {:induction false} SplitAfterWord(word: string, sep: char, tail: string)
    requires sep !in word
    ensures Split(word + [sep] + tail, sep) == [word] + Split(tail, sep)
    decreases |word|
  {
    if word == [] {
      assert word + [sep] + tail == [sep] + tail;
      assert ([sep] + tail)[1..] == tail;
    } else {
      var s := word + [sep] + tail;
      assert s[1..] == word[1..] + [sep] + tail;
      SplitAfterWord(word[1..], sep, tail);
      assert [s[0]] + word[1..] == word;
    }
  }

  /** The first piece of `word + tail` is `word` when the tail is empty or
      starts with the separator. */
  lemma {:induction false} SplitFirstPiece(word: string, sep: char, tail: string)
    requires sep !in word
    requires tail == [] || tail[0] == sep
    ensures Split(word + tail, sep)[0] == word
    decreases |word|
  {
    if word == [] {
      assert word + tail == tail;
      if tail != [] {
        assert Split(tail, sep) == [""] + Split(tail[1..], sep);
      }
    } else {
      var s := word + tail;
      assert s[1..] == word[1..] + tail;
      SplitFirstPiece(word[1..], sep, tail);
      assert [s[0]] + word[1..] == word;
    }
  }

  /** Splitting a join of separator-free pieces gives back those pieces. */
  lemma {:induction false} SplitJoin(parts: seq<string>, sep: char)
    requires |parts| >= 1
    requires forall i :: 0 <= i < |parts| ==> sep !in parts[i]
    ensures Split(Join(parts, sep), sep) == parts
    decreases |parts|
  {
    if |parts| == 1 {
      SplitFirstPiece(parts[0], sep, []);
      assert parts[0] + [] == parts[0];
      SplitHasTwoFields(parts[0], sep);
    } else {
      SplitJoin(parts[1..], sep);
      SplitAfterWord(parts[0], sep, Join(parts[1..], sep));
      assert [parts[0]] + parts[1..] == parts;
    }
  }
}
