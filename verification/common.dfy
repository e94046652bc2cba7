/**
 * Small value types and list operations shared by the whole model: an
 * Option type for Python's `None`, the chat message record that the
 * history lists and the language-model payload are made of, and Python's
 * `lst[start:]` slice with its treatment of negative starts.
 */
module Common {

  /** Python's `Optional[T]`: `None` or a value. */
  datatype Option<+T> = None | Some(value: T) {
    function GetOr(default: T): T {
      match this
      case Some(v) => v
      case None => default
    }
  }

  /** `if x:` for an optional string: both `None` and the empty string are false. */
  predicate Given(p: Option<string>) {
    p.Some? && p.value != []
  }

  /** One `{"role": ..., "content": ...}` dictionary of a chat history. */
  datatype ChatMessage = ChatMessage(role: string, content: string)

  /**
   * Python's `s[start:]`: a negative start counts from the end and is
   * clamped at 0, a start past the end gives the empty list.
   */
  function SliceFrom<T>(s: seq<T>, start: int): (r: seq<T>)
    ensures |r| <= |s| && r == s[|s| - |r|..]
    ensures start >= 0 ==> |r| == (if start <= |s| then |s| - start else 0)
    ensures start < 0 ==> |r| == (if -start <= |s| then -start else |s|)
  {
    if start >= 0 then s[if start <= |s| then start else |s|..]
    else s[if |s| + start >= 0 then |s| + start else 0..]
  }

  /**
   * Python's `s[:end]`: a negative end counts from the end and is clamped
   * at 0, an end past the length keeps everything.
   */
  function SliceTo<T>(s: seq<T>, end: int): (r: seq<T>)
    ensures |r| <= |s| && r == s[..|r|]
    ensures end >= 0 ==> |r| == (if end <= |s| then end else |s|)
    ensures end < 0 ==> |r| == (if |s| + end >= 0 then |s| + end else 0)
  {
    if end >= 0 then s[..if end <= |s| then end else |s|]
    else s[..if |s| + end >= 0 then |s| + end else 0]
  }

  /** `s[-n:]` for a positive n is the newest min(n, |s|) elements, in order. */
  lemma NegativeSliceIsSuffix<T>(s: seq<T>, n: int)
    requires n >= 1
    ensures var r := SliceFrom(s, -n);
      |r| == (if n <= |s| then n else |s|) && r == s[|s| - |r|..]
  {
  }

  /** `s[-0:]` is `s[0:]`: the whole list. */
  lemma ZeroSliceIsWhole<T>(s: seq<T>)
    ensures SliceFrom(s, -0) == s
  {
  }

  /**
   * The append-then-trim discipline shared by the conversation history and
   * the language-model history: `if len(l) > n: l = l[-n:]`. What is kept
   * is always the newest part of the list, in order: with a positive cap at
   * most n elements, with a cap of 0 everything (`l[-0:]` is the whole list),
   * and with a negative cap all but the oldest -n.
   */
  function KeepNewest<T>(s: seq<T>, n: int): (r: seq<T>)
    ensures |r| <= |s| && r == s[|s| - |r|..]
    ensures n >= 1 ==> |r| == (if |s| <= n then |s| else n)
    ensures n == 0 ==> r == s
    ensures n < 0 ==> |r| == (if |s| + n >= 0 then |s| + n else 0)
  {
    if |s| > n then SliceFrom(s, -n) else s
  }

  /**
   * Appending x and trimming to n >= 1 keeps x as the newest element, keeps
   * at most n elements, and what is kept is the tail of the old list followed
   * by x.
   */
  lemma AppendThenTrim<T>(s: seq<T>, x: T, n: int)
    requires n >= 1
    ensures var r := KeepNewest(s + [x], n);
      && |r| == (if |s| + 1 <= n then |s| + 1 else n)
      && r[|r| - 1] == x
      && r[..|r| - 1] == s[|s| + 1 - |r|..]
  {
    var t := s + [x];
    var r := KeepNewest(t, n);
    if |t| > n {
      assert r == t[|t| - n..];
      assert r[..|r| - 1] == t[|t| - n..|t| - 1];
    } else {
      assert r == t;
    }
  }

  /** A cap of 0 never trims (the `[-0:]` slice keeps everything); a negative cap drops from the front. */
  lemma TrimWithNonPositiveCap<T>(s: seq<T>, n: int)
    requires n <= 0
    ensures n == 0 ==> KeepNewest(s, n) == s
    ensures n < 0 && |s| > n ==> KeepNewest(s, n) == s[if -n <= |s| then -n else |s|..]
  {
  }

  /** The elements of s that satisfy p, in their original order (a list comprehension with an `if`). */
  function Filter<T>(s: seq<T>, p: T -> bool): (r: seq<T>)
    ensures |r| <= |s|
    ensures forall j | 0 <= j < |r| :: p(r[j])
    decreases |s|
  {
    if s == [] then []
    else (if p(s[0]) then [s[0]] else []) + Filter(s[1..], p)
  }

  /** Filtering distributes over concatenation, so the kept elements keep their order. */
  lemma {:induction false} FilterConcat<T>(s: seq<T>, t: seq<T>, p: T -> bool)
    ensures Filter(s + t, p) == Filter(s, p) + Filter(t, p)
    decreases |s|
  {
    if s == [] {
      assert s + t == t;
    } else {
      assert (s + t)[0] == s[0] && (s + t)[1..] == s[1..] + t;
      FilterConcat(s[1..], t, p);
    }
  }

  /** An element is kept exactly when it occurs in s and satisfies p. */
  lemma {:induction false} FilterMembers<T>(s: seq<T>, p: T -> bool, x: T)
    ensures x in Filter(s, p) <==> x in s && p(x)
    decreases |s|
  {
    if s != [] {
      FilterMembers(s[1..], p, x);
      assert s == [s[0]] + s[1..];
    }
  }

  /** A filter that keeps everything returns its input. */
  lemma {:induction false} FilterAll<T>(s: seq<T>, p: T -> bool)
    requires forall j | 0 <= j < |s| :: p(s[j])
    ensures Filter(s, p) == s
    decreases |s|
  {
    if s != [] {
      FilterAll(s[1..], p);
    }
  }

  /** s[i] is the first element of s that satisfies p. */
  predicate FirstAt<T>(s: seq<T>, p: T -> bool, i: int) {
    0 <= i < |s| && p(s[i]) && forall j | 0 <= j < i :: !p(s[j])
  }

  /** A `for` loop that returns the first element satisfying p, or `None` when it runs out. */
  function FindFirst<T(==)>(s: seq<T>, p: T -> bool): (r: Option<T>)
    ensures r.None? <==> forall j | 0 <= j < |s| :: !p(s[j])
    ensures r.Some? ==> exists i :: FirstAt(s, p, i) && s[i] == r.value
    decreases |s|
  {
    if s == [] then None
    else if p(s[0]) then
      assert FirstAt(s, p, 0);
      Some(s[0])
    else
      var r := FindFirst(s[1..], p);
      if r.Some? then
        var i :| FirstAt(s[1..], p, i) && s[1..][i] == r.value;
        assert FirstAt(s, p, i + 1);
        r
      else r
  }
}
