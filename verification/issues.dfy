/** Validation issues as a schema reports them, and the one folding rule
    that both the validator and the form engine use to turn a list of
    issues into an error map: walk the list in order and let each issue
    overwrite the entry under its key, so the LAST issue for a key wins. */
module Issues {

  /** One segment of an issue path: an object property or an array index. */
  datatype Segment = Key(name: string) | Index(n: nat)

  /** A reported problem: where it is (`path`) and what it says. */
  datatype Issue = Issue(path: seq<Segment>, message: string)

  /** What a schema's `safeParse` hands back: the parsed (canonical) value,
      or the issues of the error it would have thrown. */
  datatype ParseOutcome<+D> = Parsed(data: D) | Rejected(issues: seq<Issue>)

  /** The decimal digit character for `d`. */
  function DigitChar(d: nat): (c: char)
    requires d < 10
    ensures '0' <= c <= '9' && c as int - '0' as int == d
  {
    ('0' as int + d) as char
  }

  /** JavaScript's `String(n)` for a non-negative integer. */
  function Decimal(n: nat): (s: string)
    ensures |s| > 0
    ensures forall i :: 0 <= i < |s| ==> '0' <= s[i] <= '9'
    decreases n
  {
    if n < 10 then [DigitChar(n)] else Decimal(n / 10) + [DigitChar(n % 10)]
  }

  /** A segment as `Array.prototype.join` renders it. */
  function SegmentText(s: Segment): string {
    match s
    case Key(name) => name
    case Index(n) => Decimal(n)
  }

  /** `path.join(sep)`: the rendered segments with `sep` between neighbours. */
  function Join(path: seq<Segment>, sep: string): (r: string)
    ensures path == [] ==> r == ""
    ensures |path| == 1 ==> r == SegmentText(path[0])
    decreases |path|
  {
    if path == [] then ""
    else if |path| == 1 then SegmentText(path[0])
    else Join(path[..|path| - 1], sep) + sep + SegmentText(path[|path| - 1])
  }

  /** The keys that some issue of `issues` is filed under. */
  ghost function KeysOf(issues: seq<Issue>, key: Issue -> string): set<string> {
    set i | 0 <= i < |issues| :: key(issues[i])
  }

  /** The error map built by visiting `issues` in order and assigning
      `errors[key(issue)] = issue.message` for each. */
  function LastWins(issues: seq<Issue>, key: Issue -> string): (r: map<string, string>)
    ensures issues == [] ==> r == map[]
    ensures issues != [] ==> key(issues[|issues| - 1]) in r && r[key(issues[|issues| - 1])] == issues[|issues| - 1].message
    decreases |issues|
  {
    if issues == [] then map[]
    else
      var n := |issues| - 1;
      LastWins(issues[..n], key)[key(issues[n]) := issues[n].message]
  }

  /** Visiting one more issue overwrites (or adds) exactly its own key. */
  lemma LastWinsSnoc(issues: seq<Issue>, x: Issue, key: Issue -> string)
    ensures LastWins(issues + [x], key) == LastWins(issues, key)[key(x) := x.message]
  {
    assert (issues + [x])[..|issues|] == issues;
  }

  /** Appending at most one issue updates at most its own key. */
  lemma LastWinsAppendOne(issues: seq<Issue>, more: seq<Issue>, key: Issue -> string)
    requires |more| <= 1
    ensures LastWins(issues + more, key) ==
              if more == [] then LastWins(issues, key)
              else LastWins(issues, key)[key(more[0]) := more[0].message]
  {
    if more == [] {
      assert issues + more == issues;
    } else {
      assert more == [more[0]];
      LastWinsSnoc(issues, more[0], key);
    }
  }

  /** No issue after position `j` is filed under the key of issue `j`. */
  ghost predicate IsLastFor(issues: seq<Issue>, key: Issue -> string, j: nat)
    requires j < |issues|
  {
    forall i :: j < i < |issues| ==> key(issues[i]) != key(issues[j])
  }

  /** The map has an entry for a key exactly when some issue is filed under it. */
  lemma {:induction false} LastWinsKeys(issues: seq<Issue>, key: Issue -> string)
    ensures LastWins(issues, key).Keys == KeysOf(issues, key)
    decreases |issues|
  {
    if issues != [] {
      var n := |issues| - 1;
      LastWinsKeys(issues[..n], key);
      assert KeysOf(issues, key) == KeysOf(issues[..n], key) + {key(issues[n])} by {
        forall k | k in KeysOf(issues, key)
          ensures k in KeysOf(issues[..n], key) + {key(issues[n])}
        {
          var i :| 0 <= i < |issues| && key(issues[i]) == k;
          if i < n { assert issues[..n][i] == issues[i]; }
        }
        forall k | k in KeysOf(issues[..n], key)
          ensures k in KeysOf(issues, key)
        {
          var i :| 0 <= i < n && key(issues[..n][i]) == k;
          assert issues[i] == issues[..n][i];
        }
      }
    }
  }

  /** The entry under an issue's key is that issue's message when no later
      issue shares the key: the last issue for a key wins. */
  lemma {:induction false} LastWinsValue(issues: seq<Issue>, key: Issue -> string, j: nat)
    requires j < |issues|
    requires IsLastFor(issues, key, j)
    ensures key(issues[j]) in LastWins(issues, key)
    ensures LastWins(issues, key)[key(issues[j])] == issues[j].message
    decreases |issues|
  {
    var n := |issues| - 1;
    if j < n {
      forall i | j < i < n ensures key(issues[..n][i]) != key(issues[..n][j]) {
        assert issues[..n][i] == issues[i];
      }
      LastWinsValue(issues[..n], key, j);
      assert issues[..n][j] == issues[j];
    }
  }

  /** Every entry holds the message of some issue filed under that key. */
  lemma {:induction false} LastWinsFrom(issues: seq<Issue>, key: Issue -> string, k: string)
    requires k in LastWins(issues, key)
    ensures exists i :: 0 <= i < |issues| && key(issues[i]) == k
                        && LastWins(issues, key)[k] == issues[i].message
    decreases |issues|
  {
    var n := |issues| - 1;
    if key(issues[n]) == k {
      assert LastWins(issues, key)[k] == issues[n].message;
    } else {
      LastWinsFrom(issues[..n], key, k);
      var i :| 0 <= i < n && key(issues[..n][i]) == k
               && LastWins(issues[..n], key)[k] == issues[..n][i].message;
      assert issues[i] == issues[..n][i];
    }
  }

  /** The map never has more entries than there are issues. */
  lemma {:induction false} LastWinsSize(issues: seq<Issue>, key: Issue -> string)
    ensures |LastWins(issues, key)| <= |issues|
    decreases |issues|
  {
    if issues != [] {
      var n := |issues| - 1;
      LastWinsSize(issues[..n], key);
      var m := LastWins(issues[..n], key);
      var k := key(issues[n]);
      if k in m {
        assert m[k := issues[n].message].Keys == m.Keys;
      } else {
        assert m[k := issues[n].message].Keys == m.Keys + {k};
      }
    }
  }

  /** The three facts above together: the keys, the bound, and the last
      message per key. */
  lemma LastWinsSpec(issues: seq<Issue>, key: Issue -> string)
    ensures LastWins(issues, key).Keys == KeysOf(issues, key)
    ensures |LastWins(issues, key)| <= |issues|
    ensures forall j :: 0 <= j < |issues| && IsLastFor(issues, key, j) ==>
                          LastWins(issues, key)[key(issues[j])] == issues[j].message
  {
    LastWinsKeys(issues, key);
    LastWinsSize(issues, key);
    forall j | 0 <= j < |issues| && IsLastFor(issues, key, j)
      ensures LastWins(issues, key)[key(issues[j])] == issues[j].message
    {
      LastWinsValue(issues, key, j);
    }
  }
}
