/**
 * The update check of the settings page (`UpdateChecker`): find the version
 * named in the project's published README and compare it with the running
 * version. The download itself is an input: its text, or how it failed.
 */
module VersionCheck {
  import opened Wrappers
  import opened Text

  /** The pattern prefixes, in lower case: they match in any letter case. */
  const RebbitPrefix := "rebbit-"
  const VersionPrefix := "version: "

  /** A character of `[\d\.]` (ASCII digits). */
  predicate VersionChar(c: char) {
    '0' <= c <= '9' || c == '.'
  }

  /** The length of the run of version characters starting at `i`. */
  function RunLength(s: string, i: nat): (n: nat)
    requires i <= |s|
    ensures i + n <= |s|
    ensures forall k :: i <= k < i + n ==> VersionChar(s[k])
    ensures i + n == |s| || !VersionChar(s[i + n])
    decreases |s| - i
  {
    if i < |s| && VersionChar(s[i]) then 1 + RunLength(s, i + 1) else 0
  }

  /** `prefix` occurs at `i`, ignoring letter case. */
  predicate PrefixAt(s: string, prefix: string, i: nat) {
    i + |prefix| <= |s| && Lower(s[i..i + |prefix|]) == prefix
  }

  /** What `v` followed by a version run may look like: `v` or `V`, then digits and dots. */
  predicate VersionShape(v: string) {
    |v| >= 2 && (v[0] == 'v' || v[0] == 'V') && forall k :: 1 <= k < |v| ==> VersionChar(v[k])
  }

  /**
   * `prefix(v[\d\.]+)` anchored at `i`: the group, when the prefix is there,
   * followed by `v` or `V` and at least one version character; the run is
   * taken as long as it goes.
   */
  function MatchAt(s: string, prefix: string, i: nat): (r: Option<string>)
    requires i <= |s|
    ensures r.Some? <==>
      PrefixAt(s, prefix, i) && i + |prefix| + 1 < |s|
      && LowerChar(s[i + |prefix|]) == 'v' && VersionChar(s[i + |prefix| + 1])
    ensures r.Some? ==>
      var j := i + |prefix|;
      && VersionShape(r.value)
      && j + |r.value| <= |s| && r.value == s[j..j + |r.value|]
      && (j + |r.value| == |s| || !VersionChar(s[j + |r.value|]))
  {
    var j := i + |prefix|;
    if PrefixAt(s, prefix, i) && j + 1 < |s| && LowerChar(s[j]) == 'v' && VersionChar(s[j + 1]) then
      var n := RunLength(s, j + 1);
      Some(s[j..j + 1 + n])
    else None
  }

  /** `re.search` from `from`: the leftmost position at which the pattern matches. */
  function FirstMatch(s: string, prefix: string, from: nat): (r: Option<nat>)
    requires from <= |s|
    ensures r.None? ==> forall k :: from <= k <= |s| ==> MatchAt(s, prefix, k).None?
    ensures r.Some? ==>
      && from <= r.value <= |s| && MatchAt(s, prefix, r.value).Some?
      && forall k :: from <= k < r.value ==> MatchAt(s, prefix, k).None?
    decreases |s| - from
  {
    if MatchAt(s, prefix, from).Some? then Some(from)
    else if from == |s| then None
    else FirstMatch(s, prefix, from + 1)
  }

  /** `re.search(...)` then `match.group(1)`, or None. */
  function Search(s: string, prefix: string): Option<string> {
    match FirstMatch(s, prefix, 0)
    case Some(i) => MatchAt(s, prefix, i)
    case None => None
  }

  predicate Occurs(s: string, prefix: string) {
    exists k :: 0 <= k <= |s| && MatchAt(s, prefix, k).Some?
  }

  /** `_parse_version`: the `Rebbit-` pattern first, `Version: ` only when it fails. */
  function ParseVersion(content: string): (r: Option<string>)
    ensures r.None? <==> !Occurs(content, RebbitPrefix) && !Occurs(content, VersionPrefix)
    ensures r.Some? ==> VersionShape(r.value)
    ensures Occurs(content, RebbitPrefix) ==> r == Search(content, RebbitPrefix)
    ensures !Occurs(content, RebbitPrefix) ==> r == Search(content, VersionPrefix)
  {
    var r := Search(content, RebbitPrefix);
    if r.Some? then r else Search(content, VersionPrefix)
  }

  /**
   * The version found is the run after the leftmost `Rebbit-v`, in any
   * letter case, or failing that after the leftmost `Version: v`.
   */
  lemma ParseVersionLeftmost(content: string, i: nat)
    requires i <= |content|
    requires MatchAt(content, RebbitPrefix, i).Some?
    requires forall k :: 0 <= k < i ==> MatchAt(content, RebbitPrefix, k).None?
    ensures ParseVersion(content) == MatchAt(content, RebbitPrefix, i)
  {
    var f := FirstMatch(content, RebbitPrefix, 0);
    assert f.Some?;
    if f.value < i { } else if f.value > i { }
  }

  /** The README as fetched, or how fetching it failed. */
  datatype Fetch = Fetched(text: string) | RequestFailed | UnexpectedError(message: string)

  /** The pair `finished` emits: a message, and whether an update is available. */
  datatype Outcome = Outcome(message: string, updateAvailable: bool)

  /** `run` once the README is fetched or has failed to arrive. */
  function CheckOutcome(fetch: Fetch, local: string): (o: Outcome)
    ensures o.updateAvailable <==>
      fetch.Fetched? && ParseVersion(fetch.text).Some? && ParseVersion(fetch.text).value != local
    ensures fetch.RequestFailed? ==> o.message == "Error: Could not connect to GitHub to check for updates."
    ensures fetch.UnexpectedError? ==> o.message == "An unexpected error occurred: " + fetch.message
    ensures fetch.Fetched? && ParseVersion(fetch.text).None? ==>
      o.message == "Could not determine remote version from GitHub."
    ensures fetch.Fetched? && ParseVersion(fetch.text) == Some(local) ==>
      o.message == "You are up to date! (Version " + local + ")"
    ensures fetch.Fetched? && ParseVersion(fetch.text).Some? && ParseVersion(fetch.text).value != local ==>
      o.message == "A new version " + ParseVersion(fetch.text).value + " is available!\nCurrent: " + local
  {
    match fetch
    case RequestFailed => Outcome("Error: Could not connect to GitHub to check for updates.", false)
    case UnexpectedError(e) => Outcome("An unexpected error occurred: " + e, false)
    case Fetched(text) =>
      match ParseVersion(text)
      case None => Outcome("Could not determine remote version from GitHub.", false)
      case Some(remote) =>
        if remote == local then Outcome("You are up to date! (Version " + local + ")", false)
        else Outcome("A new version " + remote + " is available!\nCurrent: " + local, true)
  }
}
