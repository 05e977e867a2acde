/**
 * The project versions offered for upload: `fetchProjectMeta` in
 * src/http/index.js and its copy `_fetchProjectMeta` in
 * src/http/routes/release-uploader.js. Both push the unreleased versions whose
 * name starts with the release prefix, as `{ id, name }`, into an array in a
 * `forEach`, and then reverse that array in place. The tracker request that
 * yields the project name and its version list is left out; they are inputs.
 */
module ProjectVersions {
  import opened JsStrings

  /** A version as the issue tracker lists it. */
  datatype TrackerVersion = TrackerVersion(id: int, name: string, released: bool)

  /** `{ id: version.id, name: version.name }` */
  datatype VersionRef = VersionRef(id: int, name: string)

  /** `{ projectName, versions }` */
  datatype ProjectMeta = ProjectMeta(projectName: string, versions: seq<VersionRef>)

  /** `!version.released && version.name.startsWith(prefix)` */
  predicate Offered(v: TrackerVersion, prefix: string)
  {
    !v.released && StartsWith(v.name, prefix)
  }

  function Ref(v: TrackerVersion): VersionRef
  {
    VersionRef(v.id, v.name)
  }

  /** The offered versions, projected, in input order. */
  function Unreleased(versions: seq<TrackerVersion>, prefix: string): seq<VersionRef>
  {
    if versions == [] then []
    else
      var last := versions[|versions| - 1];
      Unreleased(versions[..|versions| - 1], prefix) + (if Offered(last, prefix) then [Ref(last)] else [])
  }

  function Reversed<T>(s: seq<T>): seq<T>
  {
    if s == [] then [] else Reversed(s[1..]) + [s[0]]
  }

  lemma {:induction false} ReversedAt<T>(s: seq<T>, k: nat)
    requires k < |s|
    ensures |Reversed(s)| == |s| && Reversed(s)[k] == s[|s| - 1 - k]
    decreases |s|
  {
    ReversedLength(s);
    if k < |s| - 1 {
      ReversedAt(s[1..], k);
    }
  }

  lemma {:induction false} ReversedLength<T>(s: seq<T>)
    ensures |Reversed(s)| == |s|
    decreases |s|
  {
    if s != [] {
      ReversedLength(s[1..]);
    }
  }

  /** An entry is listed iff it is the projection of an unreleased, prefix-matching version. */
  lemma {:induction false} UnreleasedMembership(versions: seq<TrackerVersion>, prefix: string, x: VersionRef)
    ensures x in Unreleased(versions, prefix) <==>
      exists i :: 0 <= i < |versions| && Offered(versions[i], prefix) && Ref(versions[i]) == x
    decreases |versions|
  {
    if versions != [] {
      var front := versions[..|versions| - 1];
      UnreleasedMembership(front, prefix, x);
      if x in Unreleased(front, prefix) {
        var i :| 0 <= i < |front| && Offered(front[i], prefix) && Ref(front[i]) == x;
        assert versions[i] == front[i];
      }
      if exists i :: 0 <= i < |versions| && Offered(versions[i], prefix) && Ref(versions[i]) == x {
        var i :| 0 <= i < |versions| && Offered(versions[i], prefix) && Ref(versions[i]) == x;
        if i < |front| {
          assert front[i] == versions[i];
        }
      }
    }
  }

  /** `array.reverse()` */
  method ReverseInPlace<T>(a: array<T>)
    modifies a
    ensures a[..] == Reversed(old(a[..]))
  {
    var n := a.Length;
    var i := 0;
    while i < n / 2
      invariant 0 <= i <= n / 2
      invariant forall k :: 0 <= k < i ==> a[k] == old(a[n - 1 - k]) && a[n - 1 - k] == old(a[k])
      invariant forall k :: i <= k < n - i ==> a[k] == old(a[k])
    {
      a[i], a[n - 1 - i] := a[n - 1 - i], a[i];
      i := i + 1;
    }
    ghost var before := old(a[..]);
    ReversedLength(before);
    forall k | 0 <= k < n
      ensures a[..][k] == Reversed(before)[k]
    {
      ReversedAt(before, k);
    }
  }

  /**
   * The project meta answered to the client: the offered versions, projected
   * to `{ id, name }`, last listed first.
   */
  method FetchProjectMeta(projectName: string, versions: seq<TrackerVersion>, prefix: string)
    returns (meta: ProjectMeta)
    ensures meta.projectName == projectName
    ensures meta.versions == Reversed(Unreleased(versions, prefix))
    ensures forall x :: x in meta.versions <==>
      exists i :: 0 <= i < |versions| && Offered(versions[i], prefix) && Ref(versions[i]) == x
  {
    var unreleased: seq<VersionRef> := [];
    for i := 0 to |versions|
      invariant unreleased == Unreleased(versions[..i], prefix)
    {
      assert versions[..i + 1][..i] == versions[..i];
      if !versions[i].released && StartsWith(versions[i].name, prefix) {
        unreleased := unreleased + [VersionRef(versions[i].id, versions[i].name)];
      }
    }
    assert versions[..|versions|] == versions;
    var list := new VersionRef[|unreleased|](j requires 0 <= j < |unreleased| => unreleased[j]);
    assert list[..] == unreleased;
    ReverseInPlace(list);
    meta := ProjectMeta(projectName, list[..]);
    forall x
      ensures x in meta.versions <==>
        exists i :: 0 <= i < |versions| && Offered(versions[i], prefix) && Ref(versions[i]) == x
    {
      ReversedLength(unreleased);
      if x in meta.versions {
        var k :| 0 <= k < |meta.versions| && meta.versions[k] == x;
        ReversedAt(unreleased, k);
      }
      if x in unreleased {
        var k :| 0 <= k < |unreleased| && unreleased[k] == x;
        ReversedAt(unreleased, |unreleased| - 1 - k);
      }
      UnreleasedMembership(versions, prefix, x);
    }
  }
}
