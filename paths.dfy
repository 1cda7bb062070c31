/** The parts of pathlib's PurePosixPath that the analysis reads: the path
    components, the final component (`name`) and its extension (`suffix`). */
module Paths {
  import opened Text

  /** The components of a '/'-separated path as pathlib keeps them: empty
      components (from "//" or a trailing '/') and "." components dropped. */
  function Parts(p: string): (r: seq<string>)
    ensures forall i :: 0 <= i < |r| ==> r[i] != "" && r[i] != "." && '/' !in r[i]
  {
    KeepParts(Split(p, '/'))
  }

  function KeepParts(pieces: seq<string>): (r: seq<string>)
    requires forall i :: 0 <= i < |pieces| ==> '/' !in pieces[i]
    ensures forall i :: 0 <= i < |r| ==> r[i] != "" && r[i] != "." && '/' !in r[i]
    ensures forall x :: x in r <==> x in pieces && x != "" && x != "."
    decreases |pieces|
  {
    if |pieces| == 0 then []
    else
      var rest := KeepParts(pieces[1..]);
      assert forall x :: x in pieces <==> x == pieces[0] || x in pieces[1..];
      if pieces[0] == "" || pieces[0] == "." then rest else [pieces[0]] + rest
  }

  /** Path(p).name: the last component, or "" for a path with none. */
  function Name(p: string): (r: string)
    ensures '/' !in r
    ensures r != "" ==> r in Parts(p) && r != "."
  {
    var parts := Parts(p);
    if |parts| == 0 then "" else parts[|parts| - 1]
  }

  /** Index of the last occurrence of c in s. */
  function LastIndex(s: string, c: char): (k: nat)
    requires c in s
    ensures k < |s| && s[k] == c
    ensures forall j :: k < j < |s| ==> s[j] != c
    decreases |s|
  {
    if s[|s| - 1] == c then |s| - 1
    else
      assert c in s[..|s| - 1] by {
        var j :| 0 <= j < |s| && s[j] == c;
        assert s[..|s| - 1][j] == c;
      }
      LastIndex(s[..|s| - 1], c)
  }

  /** The suffix rule of pathlib on a final component: from the last '.' on,
      provided that dot is neither the first nor the last character. */
  function NameSuffix(name: string): (r: string)
    ensures r == "" || (|r| >= 2 && r[0] == '.' && '.' !in r[1..] && |r| < |name| && EndsWith(name, r))
  {
    if '.' !in name then ""
    else
      var i := LastIndex(name, '.');
      if 0 < i < |name| - 1 then name[i..] else ""
  }

  /** A component has a non-empty suffix exactly when it has a dot that is
      neither its first nor its last character and no dot follows it. */
  lemma NameSuffixIff(name: string)
    ensures NameSuffix(name) != "" <==>
      exists i :: 0 < i < |name| - 1 && name[i] == '.' && '.' !in name[i + 1..]
  {
    if exists i :: 0 < i < |name| - 1 && name[i] == '.' && '.' !in name[i + 1..] {
      var i :| 0 < i < |name| - 1 && name[i] == '.' && '.' !in name[i + 1..];
      var k := LastIndex(name, '.');
      assert k <= i;
    }
    if NameSuffix(name) != "" {
      var k := LastIndex(name, '.');
      var t := name[k + 1..];
      assert forall j :: 0 <= j < |t| ==> t[j] != '.';
    }
  }

  /** Path(p).suffix. */
  function Suffix(p: string): (r: string)
    ensures r == "" || (|r| >= 2 && r[0] == '.' && '.' !in r[1..] && '/' !in r && EndsWith(Name(p), r))
  {
    var name := Name(p);
    var r := NameSuffix(name);
    assert forall c :: c in r ==> c in name;
    r
  }
}
