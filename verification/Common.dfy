/** Types shared by every part of the model. */
module Common {
  /** An octet of a file body. */
  type byte = bv8

  datatype Option<+T> = None | Some(value: T)

  datatype Result<+R, +E> = Ok(value: R) | Err(error: E)

  function Min(a: int, b: int): int {
    if a <= b then a else b
  }

  function Max(a: int, b: int): int {
    if a <= b then b else a
  }

  /** `file` and `content` agree on every offset in [lo, hi). */
  ghost predicate Agree(file: seq<byte>, content: seq<byte>, lo: int, hi: int) {
    && (lo < hi ==> 0 <= lo && hi <= |file| && hi <= |content|)
    && (forall x :: lo <= x < hi ==> file[x] == content[x])
  }

  /** The pieces of `s` between occurrences of `sep`. */
  function Split(s: string, sep: char): (r: seq<string>)
    ensures |r| > 0
    ensures sep !in s ==> r == [s]
  {
    if s == "" then [""]
    else
      var rest := Split(s[1..], sep);
      if s[0] == sep then [""] + rest
      else
        assert sep !in s ==> sep !in s[1..] && [s[0]] + rest[0] == s && rest[1..] == [];
        [[s[0]] + rest[0]] + rest[1..]
  }

  lemma SplitOneChar(c: char, rest: string, sep: char)
    requires c != sep
    ensures var pieces := Split(rest, sep); Split([c] + rest, sep) == [[c] + pieces[0]] + pieces[1..]
  {
    assert ([c] + rest)[1..] == rest;
  }

  /** A piece without separators is split off whole. */
  lemma {:induction false} SplitHead(s: string, tail: string, sep: char)
    requires sep !in s && (tail == "" || tail[0] == sep)
    ensures Split(s + tail, sep) == if tail == "" then [s] else [s] + Split(tail[1..], sep)
    decreases |s|
  {
    if tail == "" {
      assert s + tail == s;
    } else if s == "" {
      assert s + tail == tail;
    } else {
      SplitHead(s[1..], tail, sep);
      SplitOneChar(s[0], s[1..] + tail, sep);
      assert s + tail == [s[0]] + (s[1..] + tail);
      assert [s[0]] + s[1..] == s;
    }
  }
}
