/** HTTP vocabulary shared by the client route table and the server route table. */
module Http {

  datatype HttpMethod = GET | POST | PUT | PATCH | DELETE

  /** Index of the first occurrence of `c` in `s`, or `|s|` when there is none. */
  function IndexOf(s: string, c: char): (i: nat)
    ensures i <= |s|
    ensures i < |s| ==> s[i] == c
    ensures forall k :: 0 <= k < i ==> s[k] != c
  {
    if |s| == 0 then 0 else if s[0] == c then 0 else 1 + IndexOf(s[1..], c)
  }

  /** `s.split(sep)`: the pieces between occurrences of `sep`. */
  function Split(s: string, sep: char): (parts: seq<string>)
    ensures |parts| >= 1
    ensures forall k :: 0 <= k < |parts| ==> sep !in parts[k]
    decreases |s|
  {
    var i := IndexOf(s, sep);
    if i == |s| then [s] else [s[..i]] + Split(s[i + 1..], sep)
  }

  /** `parts.join(sep)`. */
  function Join(parts: seq<string>, sep: char): string
    requires |parts| >= 1
  {
    if |parts| == 1 then parts[0] else parts[0] + [sep] + Join(parts[1..], sep)
  }

  /** Splitting undoes joining when no part contains the separator. */
  lemma {:induction false} SplitJoin(parts: seq<string>, sep: char)
    requires |parts| >= 1
    requires forall k :: 0 <= k < |parts| ==> sep !in parts[k]
    ensures Split(Join(parts, sep), sep) == parts
  {
    var s := Join(parts, sep);
    if |parts| > 1 {
      var rest := Join(parts[1..], sep);
      assert s == parts[0] + [sep] + rest;
      assert IndexOf(s, sep) == |parts[0]| by {
        assert s[|parts[0]|] == sep;
        assert forall k :: 0 <= k < |parts[0]| ==> s[k] == parts[0][k];
      }
      assert s[..|parts[0]|] == parts[0];
      assert s[|parts[0]| + 1..] == rest;
      SplitJoin(parts[1..], sep);
      assert parts == [parts[0]] + parts[1..];
    } else {
      assert IndexOf(s, sep) == |s|;
    }
  }

  /** A request target split at its first `?` into its path and its raw query string. */
  function PathOf(target: string): string {
    target[..IndexOf(target, '?')]
  }

  function QueryOf(target: string): string {
    var i := IndexOf(target, '?');
    if i == |target| then "" else target[i + 1..]
  }

  lemma PathAndQuery(path: string, query: string)
    requires '?' !in path
    ensures PathOf(path + "?" + query) == path
    ensures QueryOf(path + "?" + query) == query
  {
    var t := path + "?" + query;
    assert t[|path|] == '?';
    assert forall k :: 0 <= k < |path| ==> t[k] == path[k];
    assert IndexOf(t, '?') == |path|;
    assert t[..|path|] == path;
    assert t[|path| + 1..] == query;
  }

  lemma PathWithoutQuery(path: string)
    requires '?' !in path
    ensures PathOf(path) == path && QueryOf(path) == ""
  {
  }
}
