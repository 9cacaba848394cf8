/**
  The key check of the diagnostic script: how the configured API key is
  masked for display and which of its formats decides whether the
  connectivity probes run.
*/
module Diagnose {
  import opened Text

  /**
    The key as the script displays it: its first and last four characters
    around three stars when it is longer than eight, and three stars alone
    otherwise.
  */
  function Mask(key: string): (r: string)
    ensures |r| == 3 || |r| == 11
    ensures |key| <= 8 <==> r == "***"
  {
    if |key| > 8 then key[..4] + "***" + key[|key| - 4..] else "***"
  }

  /** The formats the script tells apart by prefix. */
  datatype KeyFormat = Legacy | DashScope | Unknown

  /** What the script reports about a key: nothing loaded, or the masked key, its length and its format. */
  datatype KeyReport = CannotLoad | Loaded(masked: string, length: nat, format: KeyFormat)

  const LegacyPrefix: string := "ms-"
  const DashScopePrefix: string := "sk-"

  /** The models the connectivity probes call, in order. */
  const ProbeModels: seq<string> := ["qwen-turbo", "qwen3-tts-flash", "qwen-vl-ocr"]

  /** The branch `diagnose` takes on the loaded key. */
  function Check(key: string): (r: KeyReport)
    ensures r.CannotLoad? <==> key == ""
    ensures r.Loaded? ==> (r.format == Legacy <==> StartsWith(key, LegacyPrefix))
    ensures r.Loaded? ==> (r.format == DashScope <==> StartsWith(key, DashScopePrefix))
  {
    if key == "" then CannotLoad
    else
      PrefixesExclusive(key);
      var format :=
        if StartsWith(key, LegacyPrefix) then Legacy
        else if StartsWith(key, DashScopePrefix) then DashScope
        else Unknown;
      Loaded(Mask(key), |key|, format)
  }

  /** The probes a report leads to: all three for a DashScope key, none otherwise. */
  function Probes(report: KeyReport): (r: seq<string>)
    ensures r == [] || r == ProbeModels
    ensures r != [] ==> report.Loaded?
  {
    if report.Loaded? && report.format == DashScope then ProbeModels else []
  }

  /** No key has both prefixes. */
  lemma PrefixesExclusive(key: string)
    ensures !(StartsWith(key, LegacyPrefix) && StartsWith(key, DashScopePrefix))
  {
    if StartsWith(key, DashScopePrefix) {
      assert key[..3] == DashScopePrefix;
      assert key[0] == 's';
    }
  }

  /**
    A long key shows at most its first four and last four characters, and
    the display is the same for any two keys that share those.
  */
  lemma MaskShowsOnlyEnds(a: string, b: string)
    requires |a| > 8 && |b| > 8
    requires a[..4] == b[..4] && a[|a| - 4..] == b[|b| - 4..]
    ensures Mask(a) == Mask(b)
    ensures Mask(a)[..4] == a[..4] && Mask(a)[4..7] == "***" && Mask(a)[7..] == a[|a| - 4..]
  {
    var m := Mask(a);
    assert m == a[..4] + "***" + a[|a| - 4..];
    assert m[..4] == a[..4];
    assert m[4..7] == "***";
    assert m[7..] == a[|a| - 4..];
  }

  /** A short key is shown as three stars whatever it holds. */
  lemma ShortKeysLookAlike(a: string, b: string)
    requires |a| <= 8 && |b| <= 8
    ensures Mask(a) == Mask(b) == "***"
  {
  }

  /**
    Only an empty key fails to load; a loaded key is reported with its
    masked form and its length, and the legacy prefix wins over everything
    else.
  */
  lemma ReportFields(key: string)
    ensures Check(key).CannotLoad? <==> key == ""
    ensures key != "" ==> Check(key).masked == Mask(key) && Check(key).length == |key|
    ensures key != "" && StartsWith(key, LegacyPrefix) ==> Check(key).format == Legacy
  {
  }

  /**
    The connectivity probes run exactly for a key with the DashScope prefix,
    and never for a legacy key or an empty one.
  */
  lemma ProbesOnlyForDashScope(key: string)
    ensures Probes(Check(key)) != [] <==> StartsWith(key, DashScopePrefix)
    ensures Probes(Check(key)) != [] ==> Probes(Check(key)) == ProbeModels
    ensures StartsWith(key, LegacyPrefix) ==> Probes(Check(key)) == []
  {
    PrefixesExclusive(key);
  }

  /** A key in neither format is reported as unknown and probed no further. */
  lemma UnknownFormat(key: string)
    requires key != "" && !StartsWith(key, LegacyPrefix) && !StartsWith(key, DashScopePrefix)
    ensures Check(key).format == Unknown && Probes(Check(key)) == []
  {
  }
}
