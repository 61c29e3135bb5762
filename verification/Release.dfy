/** Choosing the next release version of a series. */
module Release {
  import opened Prelude

  datatype Channel = Alpha | Beta | Rc | Stable

  /** A parsed version; a stable version has serial zero. */
  datatype Version = Version(major: nat, minor: nat, patch: nat, channel: Channel, serial: nat)

  function Rank(c: Channel): nat {
    match c
    case Alpha => 0
    case Beta => 1
    case Rc => 2
    case Stable => 3
  }

  function Compare(a: Version, b: Version): int {
    if a.major != b.major then a.major - b.major
    else if a.minor != b.minor then a.minor - b.minor
    else if a.patch != b.patch then a.patch - b.patch
    else if Rank(a.channel) != Rank(b.channel) then Rank(a.channel) - Rank(b.channel)
    else a.serial - b.serial
  }

  /** Comparison is a total order on versions. */
  lemma CompareIsTotalOrder(a: Version, b: Version, c: Version)
    ensures Compare(a, b) == 0 <==> a == b
    ensures Compare(a, b) == -Compare(b, a)
    ensures Compare(a, b) <= 0 && Compare(b, c) <= 0 ==> Compare(a, c) <= 0
  {}

  /** Versions compare by major, minor and patch number, then alpha, beta, rc and stable, then by serial. */
  lemma CompareExactly(a: Version, b: Version)
    ensures Compare(a, b) > 0 <==>
            || a.major > b.major
            || (a.major == b.major && a.minor > b.minor)
            || (a.major == b.major && a.minor == b.minor && a.patch > b.patch)
            || (a.major == b.major && a.minor == b.minor && a.patch == b.patch &&
                (match b.channel
                 case Alpha => !a.channel.Alpha? || a.serial > b.serial
                 case Beta => a.channel.Rc? || a.channel.Stable? || (a.channel.Beta? && a.serial > b.serial)
                 case Rc => a.channel.Stable? || (a.channel.Rc? && a.serial > b.serial)
                 case Stable => a.channel.Stable? && a.serial > b.serial))
  {}

  /** The largest number of a list, or minus one. */
  function Max(s: seq<nat>): (m: int)
    ensures m >= -1 && (m >= 0 ==> m in s) && forall i :: 0 <= i < |s| ==> s[i] <= m
  {
    if s == [] then -1
    else
      var init, last := Max(s[..|s| - 1]), s[|s| - 1];
      assert forall i :: 0 <= i < |s| - 1 ==> s[i] == s[..|s| - 1][i];
      if last > init then last else init
  }

  function Collect(vs: seq<Version>, keep: Version -> bool, value: Version -> nat): (s: seq<nat>)
    ensures forall v :: v in vs && keep(v) ==> value(v) in s
    ensures forall n :: n in s ==> exists v :: v in vs && keep(v) && value(v) == n
  {
    if vs == [] then []
    else
      var init, last := vs[..|vs| - 1], vs[|vs| - 1];
      assert vs == init + [last];
      Collect(init, keep, value) + if keep(last) then [value(last)] else []
  }

  predicate InSeries(major: nat, minor: nat, v: Version) {
    v.major == major && v.minor == minor
  }

  /** The patch to release: that of the newest prerelease above all stable ones, or the one after the newest stable one. */
  function TargetPatch(major: nat, minor: nat, tags: seq<Version>): nat {
    var latestStable := Max(Collect(tags, v => InSeries(major, minor, v) && v.channel.Stable?, (v: Version) => v.patch));
    var active := Collect(tags, v => InSeries(major, minor, v) && !v.channel.Stable? && v.patch > latestStable, (v: Version) => v.patch);
    if active != [] then Max(active) else latestStable + 1
  }

  predicate AtTarget(major: nat, minor: nat, patch: nat, v: Version) {
    InSeries(major, minor, v) && v.patch == patch && !v.channel.Stable?
  }

  /** The next version, unless a higher channel of the target patch has been released. */
  function NextVersion(major: nat, minor: nat, channel: Channel, tags: seq<Version>): Option<Version> {
    var patch := TargetPatch(major, minor, tags);
    if channel.Stable? then Some(Version(major, minor, patch, Stable, 0))
    else
      var highest := Max(Collect(tags, v => AtTarget(major, minor, patch, v), (v: Version) => Rank(v.channel)));
      if highest > Rank(channel) then None
      else
        var serials := Collect(tags, v => AtTarget(major, minor, patch, v) && v.channel == channel, (v: Version) => v.serial);
        Some(Version(major, minor, patch, channel, if serials == [] then 1 else Max(serials) + 1))
  }

  lemma MaxBounds(s: seq<nat>, n: nat)
    requires n in s
    ensures n <= Max(s)
  {}

  lemma TargetIsNewest(major: nat, minor: nat, tags: seq<Version>, t: Version)
    requires t in tags && InSeries(major, minor, t)
    ensures t.patch <= TargetPatch(major, minor, tags)
    ensures t.channel.Stable? ==> t.patch < TargetPatch(major, minor, tags)
  {}

  /** The next version is above every tag of its series. */
  lemma NextIsAbove(major: nat, minor: nat, channel: Channel, tags: seq<Version>, t: Version)
    requires NextVersion(major, minor, channel, tags).Some? && t in tags && InSeries(major, minor, t)
    ensures Compare(NextVersion(major, minor, channel, tags).value, t) > 0
  {
    TargetIsNewest(major, minor, tags, t);
    var patch := TargetPatch(major, minor, tags);
    if t.patch == patch && !channel.Stable? {
      MaxBounds(Collect(tags, v => AtTarget(major, minor, patch, v), (v: Version) => Rank(v.channel)), Rank(t.channel));
      if t.channel == channel {
        MaxBounds(Collect(tags, v => AtTarget(major, minor, patch, v) && v.channel == channel, (v: Version) => v.serial), t.serial);
      }
    }
  }

  /** A release is refused exactly when a prerelease of a higher channel exists for the target patch. */
  lemma RefusedExactly(major: nat, minor: nat, channel: Channel, tags: seq<Version>)
    ensures NextVersion(major, minor, channel, tags).None? <==>
            !channel.Stable? &&
            exists t :: t in tags && AtTarget(major, minor, TargetPatch(major, minor, tags), t) && Rank(t.channel) > Rank(channel)
  {
    var patch := TargetPatch(major, minor, tags);
    var ranks := Collect(tags, v => AtTarget(major, minor, patch, v), (v: Version) => Rank(v.channel));
    forall t | t in tags && AtTarget(major, minor, patch, t) ensures Rank(t.channel) <= Max(ranks) {
      MaxBounds(ranks, Rank(t.channel));
    }
  }

  /** The versions released one after the other in a series, each tagged before the next is chosen. */
  function Releases(major: nat, minor: nat, channels: seq<Channel>, tags: seq<Version>): seq<Version> {
    if channels == [] then []
    else match NextVersion(major, minor, channels[0], tags)
      case None => Releases(major, minor, channels[1..], tags)
      case Some(v) => [v] + Releases(major, minor, channels[1..], tags + [v])
  }

  predicate Increasing(vs: seq<Version>) {
    forall i, j :: 0 <= i < j < |vs| ==> Compare(vs[j], vs[i]) > 0
  }

  /** All versions are of the series and above all its tags. */
  predicate Above(major: nat, minor: nat, vs: seq<Version>, tags: seq<Version>) {
    forall v :: v in vs ==> InSeries(major, minor, v) && forall t :: t in tags && InSeries(major, minor, t) ==> Compare(v, t) > 0
  }

  lemma FirstRelease(major: nat, minor: nat, v: Version, rest: seq<Version>, tags: seq<Version>)
    requires Increasing(rest) && Above(major, minor, rest, tags + [v])
    requires InSeries(major, minor, v) && forall t :: t in tags && InSeries(major, minor, t) ==> Compare(v, t) > 0
    ensures Increasing([v] + rest) && Above(major, minor, [v] + rest, tags)
  {
    hide Compare, InSeries;
    assert v in tags + [v];
    forall j | 0 < j < |[v] + rest| ensures Compare(([v] + rest)[j], v) > 0 {
      assert ([v] + rest)[j] == rest[j - 1] && rest[j - 1] in rest;
    }
    assert forall t :: t in tags ==> t in tags + [v];
  }

  /** Every sequence of releases is strictly increasing, above all earlier tags, and so never reuses a version. */
  lemma {:induction false} ReleasesIncrease(major: nat, minor: nat, channels: seq<Channel>, tags: seq<Version>)
    ensures Increasing(Releases(major, minor, channels, tags)) && Above(major, minor, Releases(major, minor, channels, tags), tags)
    decreases |channels|
  {
    hide NextVersion, Increasing, Above, InSeries, Compare;
    if channels == [] {
      NoReleases(major, minor, tags);
    } else {
      var next := NextVersion(major, minor, channels[0], tags);
      if next.None? {
        ReleasesIncrease(major, minor, channels[1..], tags);
      } else {
        ReleasesIncrease(major, minor, channels[1..], tags + [next.value]);
        NextIsInSeries(major, minor, channels[0], tags);
        forall t | t in tags && InSeries(major, minor, t) ensures Compare(next.value, t) > 0 {
          NextIsAbove(major, minor, channels[0], tags, t);
        }
        FirstRelease(major, minor, next.value, Releases(major, minor, channels[1..], tags + [next.value]), tags);
      }
    }
  }

  lemma NoReleases(major: nat, minor: nat, tags: seq<Version>)
    ensures Increasing([]) && Above(major, minor, [], tags)
  {}

  lemma NextIsInSeries(major: nat, minor: nat, channel: Channel, tags: seq<Version>)
    ensures NextVersion(major, minor, channel, tags).Some? ==>
              InSeries(major, minor, NextVersion(major, minor, channel, tags).value)
  {}

  // ---- The next version, exactly ------------------------------------------------------------------

  /** The patch is above all stable ones of the series. */
  predicate AboveStable(major: nat, minor: nat, tags: seq<Version>, patch: int) {
    forall t :: t in tags && InSeries(major, minor, t) && t.channel.Stable? ==> t.patch < patch
  }

  /** Some prerelease of the series has the patch, which is above all stable ones. */
  predicate UnderWay(major: nat, minor: nat, tags: seq<Version>, patch: nat) {
    AboveStable(major, minor, tags, patch) && exists t :: t in tags && InSeries(major, minor, t) && !t.channel.Stable? && t.patch == patch
  }

  /** The largest patch under way; if there is none, zero without stable versions and else the one after the largest. */
  lemma TargetExactly(major: nat, minor: nat, tags: seq<Version>)
    ensures var patch := TargetPatch(major, minor, tags);
      && AboveStable(major, minor, tags, patch)
      && (forall p: nat :: UnderWay(major, minor, tags, p) ==> UnderWay(major, minor, tags, patch) && p <= patch)
      && (UnderWay(major, minor, tags, patch) || patch == 0 ||
          exists t :: t in tags && InSeries(major, minor, t) && t.channel.Stable? && t.patch == patch - 1)
  {
    var latestStable := Max(Collect(tags, v => InSeries(major, minor, v) && v.channel.Stable?, (v: Version) => v.patch));
    var active := Collect(tags, v => InSeries(major, minor, v) && !v.channel.Stable? && v.patch > latestStable, (v: Version) => v.patch);
    forall t | t in tags && InSeries(major, minor, t) ensures t.channel.Stable? ==> t.patch <= latestStable {}
    assert forall p: nat :: UnderWay(major, minor, tags, p) ==> p > latestStable && p in active by {
      StableIsReached(major, minor, tags, latestStable);
    }
  }

  lemma StableIsReached(major: nat, minor: nat, tags: seq<Version>, latest: int)
    requires latest == Max(Collect(tags, v => InSeries(major, minor, v) && v.channel.Stable?, (v: Version) => v.patch))
    ensures forall p: nat :: AboveStable(major, minor, tags, p) ==> p > latest
  {}

  /** The serial follows the largest of the same patch and channel, and starts at one; a stable version has none. */
  lemma NextExactly(major: nat, minor: nat, channel: Channel, tags: seq<Version>)
    requires NextVersion(major, minor, channel, tags).Some?
    ensures var v := NextVersion(major, minor, channel, tags).value;
      && v == Version(major, minor, TargetPatch(major, minor, tags), channel, v.serial)
      && (channel.Stable? ==> v.serial == 0)
      && (!channel.Stable? ==>
            && v.serial >= 1
            && (forall t :: t in tags && AtTarget(major, minor, v.patch, t) && t.channel == channel ==> t.serial < v.serial)
            && (v.serial == 1 || exists t :: t in tags && AtTarget(major, minor, v.patch, t) && t.channel == channel && t.serial == v.serial - 1))
  {
    var patch := TargetPatch(major, minor, tags);
    var serials := Collect(tags, v => AtTarget(major, minor, patch, v) && v.channel == channel, (v: Version) => v.serial);
    forall t | t in tags && AtTarget(major, minor, patch, t) && t.channel == channel ensures t.serial in serials {}
  }
}
