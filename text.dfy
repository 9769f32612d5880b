/** String helpers of util.go, and the parts of Go's `strings` package they use.
    Go strings are byte sequences; here a `char` stands for one byte. */
module Text {

  /** strings.HasPrefix */
  predicate HasPrefix(s: string, prefix: string) {
    |prefix| <= |s| && s[..|prefix|] == prefix
  }

  /** strings.HasSuffix */
  predicate HasSuffix(s: string, suffix: string) {
    |suffix| <= |s| && s[|s| - |suffix|..] == suffix
  }

  /** strings.Contains: `sub` is a prefix of some suffix of `s`. */
  predicate Contains(s: string, sub: string)
    decreases |s|
  {
    HasPrefix(s, sub) || (s != [] && Contains(s[1..], sub))
  }

  /** `sub` occurs in `s` starting at index `i`. */
  predicate OccursAt(s: string, sub: string, i: int) {
    0 <= i <= |s| - |sub| && s[i..i + |sub|] == sub
  }

  /** Contains agrees with the positional reading "sub occurs at some index of s". */
  lemma {:induction false} ContainsIffOccurs(s: string, sub: string)
    ensures Contains(s, sub) <==> exists i :: OccursAt(s, sub, i)
    decreases |s|
  {
    if HasPrefix(s, sub) {
      assert OccursAt(s, sub, 0);
    } else if s == [] {
      assert forall i :: !OccursAt(s, sub, i);
    } else {
      ContainsIffOccurs(s[1..], sub);
      if exists i :: OccursAt(s, sub, i) {
        var i :| OccursAt(s, sub, i);
        assert i != 0;
        assert OccursAt(s[1..], sub, i - 1);
      }
      if Contains(s[1..], sub) {
        var i :| OccursAt(s[1..], sub, i);
        assert s[1..][i..i + |sub|] == s[i + 1..i + 1 + |sub|];
        assert OccursAt(s, sub, i + 1);
      }
    }
  }

  /** strings.TrimPrefix: drops `prefix` once when `s` starts with it. */
  function TrimPrefix(s: string, prefix: string): (r: string)
    ensures HasPrefix(s, prefix) ==> s == prefix + r
    ensures !HasPrefix(s, prefix) ==> r == s
  {
    if HasPrefix(s, prefix) then s[|prefix|..] else s
  }

  /** strings.TrimSuffix: drops `suffix` once when `s` ends with it. */
  function TrimSuffix(s: string, suffix: string): (r: string)
    ensures HasSuffix(s, suffix) ==> s == r + suffix
    ensures !HasSuffix(s, suffix) ==> r == s
  {
    if HasSuffix(s, suffix) then s[..|s| - |suffix|] else s
  }

  /** CleanChannel (util.go:115-121): a channel mention `<#id>` back to `id`. */
  function CleanChannel(mention: string): string {
    TrimSuffix(TrimPrefix(mention, "<#"), ">")
  }

  /** CleanChannel undoes the mention format `"<#" + id + ">"` built by MentionChannel,
      for every id, including ids that themselves end in `>`. */
  lemma CleanChannelOfMention(id: string)
    ensures CleanChannel("<#" + id + ">") == id
  {
    var m := "<#" + id + ">";
    assert HasPrefix(m, "<#") && m[2..] == id + ">";
    assert HasSuffix(id + ">", ">") && (id + ">")[..|id|] == id;
  }

  /** A string without the `<#` prefix and the `>` suffix is left as it is. */
  lemma CleanChannelOfPlain(s: string)
    requires !HasPrefix(s, "<#") && !HasSuffix(s, ">")
    ensures CleanChannel(s) == s
  {
  }

  /** truncateString (util.go:288-297). Go panics on `str[0:num]` with a negative
      `num`, and `len(str) > num` always holds then, so callers must pass num >= 0. */
  function TruncateString(str: string, num: int): (r: string)
    requires num >= 0
    ensures |str| <= num ==> r == str
    ensures |str| > num ==> |r| == (if num > 3 then num else num + 3)
    ensures |str| > num ==> HasSuffix(r, "...") && r[..|r| - 3] == str[..|r| - 3]
  {
    if |str| > num then
      var k := if num > 3 then num - 3 else num;
      str[0..k] + "..."
    else
      str
  }

  /** What SliceToString accumulates: every element followed by the separator. */
  function Joined(s: seq<string>, separator: string): string {
    if s == [] then "" else Joined(s[..|s| - 1], separator) + s[|s| - 1] + separator
  }

  /** Joining distributes over concatenation of the element lists. */
  lemma {:induction false} JoinedAppend(s: seq<string>, t: seq<string>, separator: string)
    ensures Joined(s + t, separator) == Joined(s, separator) + Joined(t, separator)
    decreases |t|
  {
    if t == [] {
      assert s + t == s;
    } else {
      var t' := t[..|t| - 1];
      assert (s + t)[..|s + t| - 1] == s + t';
      JoinedAppend(s, t', separator);
    }
  }

  /** The joined text has the elements' lengths plus one separator per element. */
  lemma {:induction false} JoinedLength(s: seq<string>, separator: string, lengths: nat)
    requires lengths == SumLengths(s)
    ensures |Joined(s, separator)| == lengths + |s| * |separator|
    decreases |s|
  {
    if s != [] {
      JoinedLength(s[..|s| - 1], separator, SumLengths(s[..|s| - 1]));
    }
  }

  function SumLengths(s: seq<string>): nat {
    if s == [] then 0 else SumLengths(s[..|s| - 1]) + |s[|s| - 1]|
  }

  /** SliceToString (util.go:107-112). */
  method SliceToString(s: seq<string>, separator: string) returns (formatted: string)
    ensures formatted == Joined(s, separator)
  {
    formatted := "";
    for i := 0 to |s|
      invariant formatted == Joined(s[..i], separator)
    {
      assert s[..i + 1][..i] == s[..i];
      formatted := formatted + s[i] + separator;
    }
    assert s[..|s|] == s;
  }

  /** Go's `isSeparator` as used by strings.Title, for ASCII: letters, digits and
      underscore continue a word; every other ASCII character separates words.
      Beyond ASCII, letters are taken to continue a word. */
  predicate IsSeparator(c: char) {
    if c as int <= 0x7F then
      !('0' <= c <= '9' || 'a' <= c <= 'z' || 'A' <= c <= 'Z' || c == '_')
    else
      false
  }

  /** unicode.ToTitle, on ASCII: lower-case letters become upper case. */
  function ToTitle(c: char): char {
    if 'a' <= c <= 'z' then (c as int - 32) as char else c
  }

  /** strings.Title: the first letter of every word is title-cased. */
  function Title(s: string): string {
    TitleAfter(s, ' ')
  }

  function TitleAfter(s: string, prev: char): (r: string)
    ensures |r| == |s|
  {
    if s == [] then []
    else [if IsSeparator(prev) then ToTitle(s[0]) else s[0]] + TitleAfter(s[1..], s[0])
  }

  predicate IsLetter(c: char) {
    'a' <= c <= 'z' || 'A' <= c <= 'Z'
  }

  /** A capitalised ASCII word, such as the role labels "Admin", "Builder" and
      "Moderator", is its own title case. */
  lemma TitleOfCapitalisedWord(s: string)
    requires s != [] && 'A' <= s[0] <= 'Z'
    requires forall i :: 0 < i < |s| ==> IsLetter(s[i])
    ensures Title(s) == s
  {
    TitleAfterWordTail(s[1..], s[0]);
  }

  lemma {:induction false} TitleAfterWordTail(s: string, prev: char)
    requires !IsSeparator(prev)
    requires forall i :: 0 <= i < |s| ==> IsLetter(s[i])
    ensures TitleAfter(s, prev) == s
    decreases |s|
  {
    if s != [] {
      TitleAfterWordTail(s[1..], s[0]);
    }
  }
}
