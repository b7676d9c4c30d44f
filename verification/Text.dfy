/** Text cut into lines. */
module Text {
  import opened Common

  /** Rust's `str::lines`: lines end at a line feed, which a carriage return may precede; the
      last line need not be ended, and is then kept as it is. */
  function Lines(s: string): seq<string>
    decreases |s|
  {
    if s == "" then []
    else
      var i := NewlineAt(s);
      if i.None? then [s] else [WithoutCr(s[..i.value])] + Lines(s[i.value + 1..])
  }

  function NewlineAt(s: string): (i: Option<nat>)
    ensures i.Some? ==> i.value < |s| && s[i.value] == '\n' && '\n' !in s[..i.value]
    ensures i.None? <==> '\n' !in s
  {
    if s == "" then None
    else if s[0] == '\n' then Some(0)
    else
      var i := NewlineAt(s[1..]);
      assert s == [s[0]] + s[1..];
      if i.Some? then assert s[..i.value + 1] == [s[0]] + s[1..][..i.value]; Some(i.value + 1) else None
  }

  function WithoutCr(l: string): string {
    if l != "" && l[|l| - 1] == '\r' then l[..|l| - 1] else l
  }

  lemma {:induction false} NewlineFirst(s: string, i: nat)
    requires i < |s| && s[i] == '\n' && '\n' !in s[..i]
    ensures NewlineAt(s) == Some(i)
    decreases i
  {
    if i == 0 {
    } else {
      assert s[0] in s[..i];
      assert s[1..][..i - 1] == s[..i][1..];
      NewlineFirst(s[1..], i - 1);
    }
  }

  /** Lines, one by one: a line feed ends a line and a carriage return before it is dropped; any
      other carriage return stays; what is left unended is the last line, if anything is. */
  lemma LinesExactly(l: string, rest: string)
    requires '\n' !in l
    ensures Lines(l + "\r\n" + rest) == [l] + Lines(rest)
    ensures l == "" || l[|l| - 1] != '\r' ==> Lines(l + "\n" + rest) == [l] + Lines(rest)
    ensures Lines(l) == if l == "" then [] else [l]
  {
    var a, b := l + "\r\n" + rest, l + "\n" + rest;
    assert a[..|l| + 1] == l + "\r" && a[|l| + 2..] == rest;
    NewlineFirst(a, |l| + 1);
    assert b[..|l|] == l && b[|l| + 1..] == rest;
    NewlineFirst(b, |l|);
    assert (l + "\r")[..|l|] == l;
  }
}
