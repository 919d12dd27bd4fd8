/** Text in a fixed buffer, as a reader that looks for the terminator sees it. */
module CStrings {
  import opened Outcomes

  /** What stands before the first terminator; without one the reader leaves the buffer. */
  function CString<T(==)>(buffer: seq<T>, nul: T): (s: Option<seq<T>>)
    ensures s.None? <==> nul !in buffer
    ensures s.Some? ==> nul !in s.value && s.value + [nul] <= buffer
  {
    if buffer == [] then None
    else if buffer[0] == nul then Some([])
    else
      match CString(buffer[1..], nul)
      case None => None
      case Some(s) => Some([buffer[0]] + s)
  }

  /** A text padded with terminators is read back exactly if there is room for one of them. */
  lemma {:induction false} CStringOfPadded<T>(s: seq<T>, n: nat, nul: T)
    requires nul !in s
    ensures CString(s + seq(n, _ => nul), nul) == if n == 0 then None else Some(s)
  {
    var padding := seq(n, _ => nul);
    if s == [] {
      assert s + padding == padding;
    } else {
      CStringOfPadded(s[1..], n, nul);
      assert (s + padding)[1..] == s[1..] + padding;
      assert (s + padding)[0] == s[0] && [s[0]] + s[1..] == s;
    }
  }

  /** A text without terminator that is followed by one is what is read. */
  lemma {:induction false} CStringUnique<T>(buffer: seq<T>, s: seq<T>, nul: T)
    requires nul !in s && s + [nul] <= buffer
    ensures CString(buffer, nul) == Some(s)
  {
    assert buffer[0] == (s + [nul])[0];
    if s != [] {
      assert s[1..] + [nul] == (s + [nul])[1..] <= buffer[1..];
      CStringUnique(buffer[1..], s[1..], nul);
      assert s == [s[0]] + s[1..];
    }
  }

  /** A reader goes on behind a buffer exactly if there is no terminator in it. */
  lemma {:induction false} CStringAppend<T>(a: seq<T>, b: seq<T>, nul: T)
    ensures var r := CString(b, nul);
            CString(a + b, nul)
            == if nul in a then CString(a, nul) else if r.None? then None else Some(a + r.value)
  {
    hide CString;
    var r := CString(b, nul);
    if nul in a {
      var s := CString(a, nul).value;
      assert s + [nul] <= a <= a + b;
      CStringUnique(a + b, s, nul);
    } else if r.Some? {
      assert (a + r.value) + [nul] == a + (r.value + [nul]);
      CStringUnique(a + b, a + r.value, nul);
    }
  }
}
