/** The operations of Go's strings package that the log tools use, on sequences of characters. */
module Text {
  import opened Common

  /** strings.Index: the leftmost position at which sub occurs. */
  function Find(s: string, sub: string): (r: Option<nat>)
    ensures r.Some? ==> r.value <= |s| && sub <= s[r.value..]
    ensures forall i :: 0 <= i <= |s| && (r.None? || i < r.value) ==> !(sub <= s[i..])
  {
    if sub <= s then Some(0)
    else if s == "" then None
    else
      var r := Find(s[1..], sub);
      assert forall i :: 1 <= i <= |s| ==> s[i..] == s[1..][i - 1..];
      assert s[0..] == s;
      if r.Some? then Some(r.value + 1) else None
  }

  predicate Contains(s: string, sub: string) { Find(s, sub).Some? }

  /** strings.SplitN(s, sep, 2): the part before the first separator and, if there is one, the part after. */
  function SplitTwo(s: string, sep: string): (string, Option<string>) {
    match Find(s, sep)
    case None => (s, None)
    case Some(i) => assert |sep| <= |s[i..]|; (s[..i], Some(s[i + |sep|..]))
  }

  /** An occurrence with none before it is the one that is found. */
  lemma FindLeftmost(s: string, sub: string, k: nat)
    requires k <= |s| && sub <= s[k..]
    requires forall i :: 0 <= i < k ==> !(sub <= s[i..])
    ensures Find(s, sub) == Some(k)
  {
  }

  /** unicode.IsSpace. */
  predicate IsSpace(c: char) {
    || '\t' <= c <= '\r' || c == ' ' || c == '\U{0085}' || c == '\U{00A0}'
    || c == '\U{1680}' || '\U{2000}' <= c <= '\U{200A}' || c == '\U{2028}' || c == '\U{2029}'
    || c == '\U{202F}' || c == '\U{205F}' || c == '\U{3000}'
  }

  function TrimLeft(s: string, cut: char -> bool): string {
    if s != "" && cut(s[0]) then TrimLeft(s[1..], cut) else s
  }

  function TrimRight(s: string, cut: char -> bool): string {
    if s != "" && cut(s[|s| - 1]) then TrimRight(s[..|s| - 1], cut) else s
  }

  function Trim(s: string, cut: char -> bool): string { TrimRight(TrimLeft(s, cut), cut) }

  function TrimSpace(s: string): string { Trim(s, IsSpace) }

  /** Trimming on the right stops at the last character that stays. */
  lemma {:induction false} TrimRightKeeps(s: string, cut: char -> bool, k: nat)
    requires k < |s| && !cut(s[k])
    ensures k < |TrimRight(s, cut)| <= |s| && TrimRight(s, cut) == s[..|TrimRight(s, cut)|]
    decreases |s|
  {
    if cut(s[|s| - 1]) {
      TrimRightKeeps(s[..|s| - 1], cut, k);
    }
  }

  /** Trimming removes exactly the blanks in front, or behind. */
  lemma {:induction false} TrimLeftAll(a: string, s: string, cut: char -> bool)
    requires forall i :: 0 <= i < |a| ==> cut(a[i])
    requires s != "" && !cut(s[0])
    ensures TrimLeft(a + s, cut) == s
  {
    if a == "" {
      assert a + s == s;
    } else {
      assert (a + s)[1..] == a[1..] + s;
      TrimLeftAll(a[1..], s, cut);
    }
  }

  lemma {:induction false} TrimRightAll(s: string, b: string, cut: char -> bool)
    requires forall i :: 0 <= i < |b| ==> cut(b[i])
    requires s != "" && !cut(s[|s| - 1])
    ensures TrimRight(s + b, cut) == s
    decreases |b|
  {
    if b == "" {
      assert s + b == s;
    } else {
      assert (s + b)[..|s + b| - 1] == s + b[..|b| - 1];
      TrimRightAll(s, b[..|b| - 1], cut);
    }
  }

  /** strings.Join(lines, "\n"). */
  function Join(lines: seq<string>): string {
    if lines == [] then ""
    else if |lines| == 1 then lines[0]
    else lines[0] + "\n" + Join(lines[1..])
  }
}
