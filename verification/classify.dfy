/**
 The service heuristic of the graph layout (`getShortProviderName` and
 `extractServiceFromType`, src/utils/parsePlan.ts).

 A resource type loses its provider prefix (`<short provider>_`, else
 `google_`, `aws_` or `azurerm_`), is split on `_` (empty segments kept) and
 divided into a service and a resource name. A single segment is both. A
 known multi-word service that the remainder starts with, followed by the
 end or `_`, wins; otherwise the service runs up to and including the first
 `v<digits>` segment after the first, or is the first segment alone.
 */
module ServiceClassifier {
  import opened Collections
  import opened Text

  datatype ServiceName = ServiceName(service: string, resourceName: string)

  /**
   `getShortProviderName(provider)`: the last `/`-separated segment, that is
   the longest suffix of `provider` without a `/`.
   */
  function ShortProviderName(provider: string): (r: string)
    ensures '/' !in r
    ensures EndsWith(provider, r)
    ensures |r| < |provider| ==> provider[|provider| - |r| - 1] == '/'
  {
    SplitLast(provider, '/');
    Last(Split(provider, '/'))
  }

  /** The three properties above pin the short name down. */
  lemma ShortProviderNameUnique(provider: string, r: string)
    requires '/' !in r
    requires EndsWith(provider, r)
    requires |r| < |provider| ==> provider[|provider| - |r| - 1] == '/'
    ensures r == ShortProviderName(provider)
  {
  }

  /**
   The remainder once the provider prefix is removed: `<shortProvider>_`
   first, then `google_`, `aws_`, `azurerm_`; otherwise the whole type.
   */
  function StripProvider(resourceType: string, shortProvider: string): (remaining: string)
    ensures StartsWith(resourceType, shortProvider + "_") ==>
      resourceType == shortProvider + "_" + remaining
    ensures !StartsWith(resourceType, shortProvider + "_") && StartsWith(resourceType, "google_") ==>
      resourceType == "google_" + remaining
    ensures (!StartsWith(resourceType, shortProvider + "_") && !StartsWith(resourceType, "google_")
             && StartsWith(resourceType, "aws_")) ==>
      resourceType == "aws_" + remaining
    ensures (!StartsWith(resourceType, shortProvider + "_") && !StartsWith(resourceType, "google_")
             && !StartsWith(resourceType, "aws_") && StartsWith(resourceType, "azurerm_")) ==>
      resourceType == "azurerm_" + remaining
    ensures (!StartsWith(resourceType, shortProvider + "_") && !StartsWith(resourceType, "google_")
             && !StartsWith(resourceType, "aws_") && !StartsWith(resourceType, "azurerm_")) ==>
      remaining == resourceType
  {
    if StartsWith(resourceType, shortProvider + "_") then
      assert resourceType == resourceType[..|shortProvider| + 1] + resourceType[|shortProvider| + 1..];
      resourceType[|shortProvider| + 1..]
    else if StartsWith(resourceType, "google_") then
      assert resourceType == resourceType[..7] + resourceType[7..];
      resourceType[7..]
    else if StartsWith(resourceType, "aws_") then
      assert resourceType == resourceType[..4] + resourceType[4..];
      resourceType[4..]
    else if StartsWith(resourceType, "azurerm_") then
      assert resourceType == resourceType[..8] + resourceType[8..];
      resourceType[8..]
    else resourceType
  }

  function IsDigit(c: char): bool {
    '0' <= c <= '9'
  }

  /** `/^v\d+$/.test(s)`. */
  predicate IsVersionToken(s: string) {
    |s| >= 2 && s[0] == 'v' && forall i :: 1 <= i < |s| ==> IsDigit(s[i])
  }

  /**
   The search for a version segment among `parts[from..|parts| - 1]`: one past
   the first version segment found, or 1 when there is none.
   */
  function VersionFrom(parts: seq<string>, from: nat): (k: nat)
    requires 1 <= from <= |parts| - 1
    ensures k == 1 || from < k <= |parts| - 1
    ensures k == 1 ==> forall j :: from <= j < |parts| - 1 ==> !IsVersionToken(parts[j])
    ensures k > 1 ==>
      IsVersionToken(parts[k - 1]) && forall j :: from <= j < k - 1 ==> !IsVersionToken(parts[j])
    decreases |parts| - from
  {
    if from == |parts| - 1 then 1
    else if IsVersionToken(parts[from]) then from + 1
    else VersionFrom(parts, from + 1)
  }

  /**
   `serviceEndIndex`: one past the first version segment strictly between the
   first and the last segment, or 1.
   */
  function VersionEnd(parts: seq<string>): (k: nat)
    requires |parts| >= 2
    ensures 1 <= k <= |parts| - 1
    ensures k == 1 <==> forall j :: 1 <= j < |parts| - 1 ==> !IsVersionToken(parts[j])
    ensures k > 1 ==>
      IsVersionToken(parts[k - 1]) && forall j :: 1 <= j < k - 1 ==> !IsVersionToken(parts[j])
  {
    VersionFrom(parts, 1)
  }

  /** `knownMultiWordServices`, in table order. */
  const KnownServices: seq<string> := [
    "cloud_run", "cloud_sql", "cloud_storage", "cloud_functions",
    "compute_instance", "container_cluster", "bigquery",
    "api_gateway", "app_engine", "cloud_build",
    "iam_role", "iam_policy", "iam_user",
    "s3_bucket", "ec2_instance", "rds_cluster",
    "lambda_function", "dynamodb_table"]

  /** `remaining` starts with `known`, followed by the end or `_`. */
  predicate KnownMatches(remaining: string, known: string) {
    StartsWith(remaining, known) && (|remaining| == |known| || remaining[|known|] == '_')
  }

  /** The first table entry from index `from` on that matches. */
  function FirstKnown(remaining: string, from: nat): (r: Option<nat>)
    requires from <= |KnownServices|
    ensures r.Some? ==>
      && from <= r.value < |KnownServices|
      && KnownMatches(remaining, KnownServices[r.value])
      && forall j :: from <= j < r.value ==> !KnownMatches(remaining, KnownServices[j])
    ensures r.None? ==> forall j :: from <= j < |KnownServices| ==> !KnownMatches(remaining, KnownServices[j])
    decreases |KnownServices| - from
  {
    if from == |KnownServices| then None
    else if KnownMatches(remaining, KnownServices[from]) then Some(from)
    else FirstKnown(remaining, from + 1)
  }

  /** What `extractServiceFromType(resourceType, provider)` returns. */
  function Classify(resourceType: string, provider: string): ServiceName {
    ClassifyRemaining(StripProvider(resourceType, ShortProviderName(provider)))
  }

  /** The division of the remainder into service and resource name. */
  function ClassifyRemaining(remaining: string): ServiceName {
    var parts := Split(remaining, '_');
    if |parts| == 1 then ServiceName(parts[0], parts[0])
    else
      match FirstKnown(remaining, 0)
      case Some(k) =>
        var known := KnownServices[k];
        var rest := remaining[|known|..];
        ServiceName(known, if rest != "" then rest[1..] else Last(Split(known, '_')))
      case None =>
        var e := VersionEnd(parts);
        var tail := Join(parts[e..], '_');
        ServiceName(Join(parts[..e], '_'), if tail != "" then tail else Last(parts))
  }

  /** `extractServiceFromType(type, provider)`. */
  method ExtractServiceFromType(resourceType: string, provider: string) returns (r: ServiceName)
    ensures r == Classify(resourceType, provider)
  {
    var shortProvider := ShortProviderName(provider);
    var remaining := resourceType;
    if StartsWith(resourceType, shortProvider + "_") {
      remaining := resourceType[|shortProvider| + 1..];
    } else if StartsWith(resourceType, "google_") {
      remaining := resourceType[7..];
    } else if StartsWith(resourceType, "aws_") {
      remaining := resourceType[4..];
    } else if StartsWith(resourceType, "azurerm_") {
      remaining := resourceType[8..];
    }
    assert remaining == StripProvider(resourceType, shortProvider);

    var parts := Split(remaining, '_');
    if |parts| == 1 {
      return ServiceName(parts[0], parts[0]);
    }

    var serviceEndIndex := ServiceEndIndex(parts);
    var found := FindKnownService(remaining);
    if found.Some? {
      var known := KnownServices[found.value];
      var rest := remaining[|known|..];
      return ServiceName(known, if rest != "" then rest[1..] else Last(Split(known, '_')));
    }

    var service := Join(parts[..serviceEndIndex], '_');
    var resourceName := Join(parts[serviceEndIndex..], '_');
    if resourceName == "" {
      resourceName := Last(parts);
    }
    r := ServiceName(service, resourceName);
  }

  /** The loop looking for a `v<digits>` segment, stopping at the first. */
  method ServiceEndIndex(parts: seq<string>) returns (serviceEndIndex: nat)
    requires |parts| >= 2
    ensures serviceEndIndex == VersionEnd(parts)
  {
    serviceEndIndex := 1;
    var i := 1;
    while i < |parts| - 1
      invariant 1 <= i <= |parts| - 1
      invariant serviceEndIndex == 1
      invariant forall j :: 1 <= j < i ==> !IsVersionToken(parts[j])
      decreases |parts| - i
    {
      if IsVersionToken(parts[i]) {
        serviceEndIndex := i + 1;
        break;
      }
      i := i + 1;
    }
  }

  /**
   The loop over the known-service table, which returns at the first entry
   that matches; the index of that entry.
   */
  method FindKnownService(remaining: string) returns (m: Option<nat>)
    ensures m == FirstKnown(remaining, 0)
  {
    for k := 0 to |KnownServices|
      invariant forall j :: 0 <= j < k ==> !KnownMatches(remaining, KnownServices[j])
    {
      var known := KnownServices[k];
      if StartsWith(remaining, known) {
        var rest := remaining[|known|..];
        if rest == "" || StartsWith(rest, "_") {
          FirstMatchIsFound(remaining, k);
          return Some(k);
        }
      }
    }
    return None;
  }

  // ----- Properties -----

  /** A string splits into one segment exactly when it has no separator. */
  lemma SplitSingle(s: string, sep: char)
    ensures |Split(s, sep)| == 1 <==> sep !in s
  {
    if sep !in s {
      SplitSegment(s, sep);
    } else {
      JoinSplit(s, sep);
    }
  }

  /** The join of two or more parts contains a separator, so is never empty. */
  lemma JoinOfSeveral(parts: seq<string>, sep: char)
    requires |parts| >= 2
    ensures sep in Join(parts, sep)
  {
    assert Join(parts, sep)[|parts[0]|] == sep;
  }

  /** The `|| parts[parts.length - 1]` fallback never changes the resource name. */
  lemma FallbackRedundant(parts: seq<string>, e: nat)
    requires 1 <= e <= |parts| - 1
    ensures Join(parts[e..], '_') == "" ==> Last(parts) == ""
  {
    if |parts[e..]| >= 2 {
      JoinOfSeveral(parts[e..], '_');
    } else {
      assert parts[e..] == [Last(parts)];
    }
  }

  /**
   The service and resource name put back together with `_` give the
   remainder, except for a known service that is the whole remainder, whose
   resource name is then its own last word; a remainder without `_` is both.
   */
  lemma Recombine(remaining: string)
    ensures var r := ClassifyRemaining(remaining);
            if '_' !in remaining then r.service == remaining && r.resourceName == remaining
            else (r.service + "_" + r.resourceName == remaining
                  || (r.service == remaining && r.service in KnownServices
                      && r.resourceName == Last(Split(r.service, '_'))))
  {
    SplitSingle(remaining, '_');
    if '_' !in remaining {
      SplitSegment(remaining, '_');
    } else if FirstKnown(remaining, 0).Some? {
      RecombineKnown(remaining);
    } else {
      RecombineDefault(remaining);
    }
  }

  lemma RecombineKnown(remaining: string)
    requires |Split(remaining, '_')| > 1 && FirstKnown(remaining, 0).Some?
    ensures var r := ClassifyRemaining(remaining);
            r.service + "_" + r.resourceName == remaining
            || (r.service == remaining && r.service in KnownServices
                && r.resourceName == Last(Split(r.service, '_')))
  {
    var known := KnownServices[FirstKnown(remaining, 0).value];
    var rest := remaining[|known|..];
    KnownSplitsOff(remaining, known, rest, ClassifyRemaining(remaining));
  }

  lemma KnownSplitsOff(remaining: string, known: string, rest: string, r: ServiceName)
    requires KnownMatches(remaining, known) && rest == remaining[|known|..]
    requires r == ServiceName(known, if rest != "" then rest[1..] else Last(Split(known, '_')))
    ensures r.service + "_" + r.resourceName == remaining
            || (r.service == remaining && r.resourceName == Last(Split(r.service, '_')))
  {
    assert remaining == known + rest;
    if rest != "" {
      assert rest == "_" + rest[1..];
    }
  }

  /**
   Without a matching table entry, the remainder is cut at `serviceEndIndex`:
   the segments before it are the service, the segments from it on the
   resource name, and the two put back together give the remainder.
   */
  lemma RecombineDefault(remaining: string)
    requires |Split(remaining, '_')| > 1 && FirstKnown(remaining, 0).None?
    ensures var r := ClassifyRemaining(remaining);
            r.service + "_" + r.resourceName == remaining
    ensures var r, p := ClassifyRemaining(remaining), Split(remaining, '_');
            r.service == Join(p[..VersionEnd(p)], '_') && r.resourceName == Join(p[VersionEnd(p)..], '_')
  {
    var parts := Split(remaining, '_');
    JoinSplit(remaining, '_');
    var e := VersionEnd(parts);
    assert parts == parts[..e] + parts[e..];
    JoinAppend(parts[..e], parts[e..], '_');
    FallbackRedundant(parts, e);
  }

  /**
   Without a matching table entry and without a `v<digits>` segment between
   the first and the last, the service is the first segment and the resource
   name the rest.
   */
  lemma DefaultWithoutVersion(remaining: string)
    requires |Split(remaining, '_')| > 1 && FirstKnown(remaining, 0).None?
    requires var p := Split(remaining, '_'); forall j :: 1 <= j < |p| - 1 ==> !IsVersionToken(p[j])
    ensures var r, p := ClassifyRemaining(remaining), Split(remaining, '_');
            r.service == p[0] && r.resourceName == Join(p[1..], '_')
  {
    var p := Split(remaining, '_');
    RecombineDefault(remaining);
    assert VersionEnd(p) == 1;
    assert p[..1] == [p[0]];
  }

  /**
   Without a matching table entry, a `v<digits>` segment at position `k`
   between the first and the last, with none before it, ends the service.
   */
  lemma DefaultWithVersion(remaining: string, k: nat)
    requires |Split(remaining, '_')| > 1 && FirstKnown(remaining, 0).None?
    requires var p := Split(remaining, '_');
             1 <= k < |p| - 1 && IsVersionToken(p[k]) && forall j :: 1 <= j < k ==> !IsVersionToken(p[j])
    ensures var r, p := ClassifyRemaining(remaining), Split(remaining, '_');
            r.service == Join(p[..k + 1], '_') && r.resourceName == Join(p[k + 1..], '_')
  {
    RecombineDefault(remaining);
    VersionEndAt(Split(remaining, '_'), k);
  }

  /** The first version segment strictly between the first and the last ends the service. */
  lemma VersionEndAt(parts: seq<string>, k: nat)
    requires 1 <= k < |parts| - 1 && IsVersionToken(parts[k])
    requires forall j :: 1 <= j < k ==> !IsVersionToken(parts[j])
    ensures VersionEnd(parts) == k + 1
  {
  }

  /**
   A remainder with a `_` that matches a known service is filed under the first
   table entry that matches, whatever version segments it has.
   */
  lemma FirstKnownWins(remaining: string, k: nat)
    requires k < |KnownServices|
    requires '_' in remaining && KnownMatches(remaining, KnownServices[k])
    requires forall j :: 0 <= j < k ==> !KnownMatches(remaining, KnownServices[j])
    ensures ClassifyRemaining(remaining).service == KnownServices[k]
  {
    SplitSingle(remaining, '_');
    FirstMatchIsFound(remaining, k);
  }

  /** `extractServiceFromType` once the short provider name and the remainder are known. */
  lemma ClassifyVia(resourceType: string, provider: string, shortProvider: string, remaining: string)
    requires ShortProviderName(provider) == shortProvider
    requires StripProvider(resourceType, shortProvider) == remaining
    ensures Classify(resourceType, provider) == ClassifyRemaining(remaining)
  {
  }

  lemma ShortNameOfRegistryAddress(name: string)
    requires name == "google" || name == "aws"
    ensures ShortProviderName("registry.terraform.io/hashicorp/" + name) == name
  {
    var p := "registry.terraform.io/hashicorp/" + name;
    assert p[|p| - |name|..] == name;
    assert p[|p| - |name| - 1] == '/';
    assert '/' !in name by {
      assert forall i :: 0 <= i < |name| ==> name[i] != '/';
    }
    ShortProviderNameUnique(p, name);
  }

  /**
   `google_cloud_run_v2_job` is filed under `cloud_run` with resource name
   `v2_job`: the known-service table wins over the version rule, which alone
   would give the service `cloud_run_v2`.
   */
  lemma CloudRunJob(resourceType: string, provider: string)
    requires resourceType == "google_cloud_run_v2_job"
    requires provider == "registry.terraform.io/hashicorp/google"
    ensures Classify(resourceType, provider) == ServiceName("cloud_run", "v2_job")
    ensures var parts := Split(resourceType[7..], '_');
            |parts| >= 2 && Join(parts[..VersionEnd(parts)], '_') == "cloud_run_v2"
  {
    ShortNameOfRegistryAddress("google");
    assert provider == "registry.terraform.io/hashicorp/" + "google";
    var remaining := resourceType[7..];
    assert remaining == "cloud_run_v2_job";
    assert StripProvider(resourceType, "google") == remaining by {
      assert StartsWith(resourceType, "google" + "_");
    }
    CloudRunParts(remaining);
    CloudRunRemaining(remaining);
    ClassifyVia(resourceType, provider, "google", remaining);
  }

  lemma CloudRunParts(remaining: string)
    requires remaining == "cloud_run_v2_job"
    ensures Split(remaining, '_') == ["cloud", "run", "v2", "job"]
  {
    var segs := ["cloud", "run", "v2", "job"];
    assert Join(segs, '_') == remaining by {
      assert Join(segs[3..], '_') == "job";
      assert Join(segs[2..], '_') == "v2_job";
      assert Join(segs[1..], '_') == "run_v2_job";
    }
    assert forall i :: 0 <= i < |segs| ==> '_' !in segs[i];
    SplitJoin(segs, '_');
  }

  lemma CloudRunRemaining(remaining: string)
    requires remaining == "cloud_run_v2_job"
    requires Split(remaining, '_') == ["cloud", "run", "v2", "job"]
    ensures ClassifyRemaining(remaining) == ServiceName("cloud_run", "v2_job")
    ensures var parts := Split(remaining, '_');
            Join(parts[..VersionEnd(parts)], '_') == "cloud_run_v2"
  {
    var segs := ["cloud", "run", "v2", "job"];
    assert KnownMatches(remaining, KnownServices[0]);
    assert FirstKnown(remaining, 0) == Some(0);
    assert remaining[|"cloud_run"|..] == "_v2_job";
    assert !IsVersionToken(segs[1]);
    assert IsVersionToken(segs[2]);
    assert VersionEnd(segs) == 3;
    assert segs[..3] == ["cloud", "run", "v2"];
    var t := segs[..3];
    assert t == ["cloud", "run", "v2"];
    assert Join(t, '_') == "cloud_run_v2" by {
      assert t[1..] == ["run", "v2"];
      assert t[1..][1..] == ["v2"];
      assert Join(t[1..][1..], '_') == "v2";
      assert Join(t[1..], '_') == "run_v2";
    }
  }

  /** The first table entry that matches is the one `FirstKnown` finds. */
  lemma FirstMatchIsFound(remaining: string, k: nat)
    requires k < |KnownServices| && KnownMatches(remaining, KnownServices[k])
    requires forall j :: 0 <= j < k ==> !KnownMatches(remaining, KnownServices[j])
    ensures FirstKnown(remaining, 0) == Some(k)
  {
  }

  /** No entry before `s3_bucket` starts with `s`. */
  lemma NoKnownBeforeS3(remaining: string)
    requires |remaining| > 0 && remaining[0] == 's'
    ensures forall j :: 0 <= j < 13 ==> !KnownMatches(remaining, KnownServices[j])
  {
    var firsts := seq(13, j requires 0 <= j < 13 => KnownServices[j][0]);
    assert firsts == "ccccccbaaciii";
  }

  /** `aws_s3_bucket` is the known service `s3_bucket` with resource name `bucket`. */
  lemma S3Bucket(resourceType: string, provider: string)
    requires resourceType == "aws_s3_bucket"
    requires provider == "registry.terraform.io/hashicorp/aws"
    ensures Classify(resourceType, provider) == ServiceName("s3_bucket", "bucket")
  {
    ShortNameOfRegistryAddress("aws");
    assert provider == "registry.terraform.io/hashicorp/" + "aws";
    var remaining := resourceType[4..];
    assert remaining == "s3_bucket";
    assert StripProvider(resourceType, "aws") == remaining by {
      assert StartsWith(resourceType, "aws" + "_");
    }
    S3BucketRemaining(remaining);
    ClassifyVia(resourceType, provider, "aws", remaining);
  }

  lemma S3BucketRemaining(remaining: string)
    requires remaining == "s3_bucket"
    ensures ClassifyRemaining(remaining) == ServiceName("s3_bucket", "bucket")
  {
    S3BucketParts(remaining);
    S3BucketKnown(remaining);
    WholeKnownService(remaining, 13);
  }

  lemma S3BucketParts(remaining: string)
    requires remaining == "s3_bucket"
    ensures Split(remaining, '_') == ["s3", "bucket"]
  {
    var segs := ["s3", "bucket"];
    assert Join(segs, '_') == remaining;
    assert forall i :: 0 <= i < |segs| ==> '_' !in segs[i];
    SplitJoin(segs, '_');
  }

  lemma S3BucketKnown(remaining: string)
    requires remaining == "s3_bucket"
    ensures FirstKnown(remaining, 0) == Some(13) && remaining == KnownServices[13]
  {
    NoKnownBeforeS3(remaining);
    assert KnownMatches(remaining, KnownServices[13]);
    FirstMatchIsFound(remaining, 13);
  }

  /** A remainder that is exactly a known service takes the service's last word as resource name. */
  lemma WholeKnownService(remaining: string, k: nat)
    requires FirstKnown(remaining, 0) == Some(k) && remaining == KnownServices[k]
    requires |Split(remaining, '_')| > 1
    ensures ClassifyRemaining(remaining) == ServiceName(remaining, Last(Split(remaining, '_')))
  {
    assert remaining[|remaining|..] == "";
  }
}
