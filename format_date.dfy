/** The string half of `parseUtcTimestamp` (utils/formatDate.ts): a timestamp
    without a zone designator is read as UTC by appending "Z". The `new Date`
    that follows is date parsing and is not part of this model. */
module FormatDate {
  import opened Js

  predicate IsDigit(c: char) {
    '0' <= c <= '9'
  }

  /** The regular expression /(?:Z|[+\-]\d{2}:\d{2})$/. */
  predicate HasZoneSuffix(s: string) {
    || (|s| >= 1 && s[|s| - 1] == 'Z')
    || (&& |s| >= 6
        && (s[|s| - 6] == '+' || s[|s| - 6] == '-')
        && IsDigit(s[|s| - 5]) && IsDigit(s[|s| - 4])
        && s[|s| - 3] == ':'
        && IsDigit(s[|s| - 2]) && IsDigit(s[|s| - 1]))
  }

  /** The timestamp string that `parseUtcTimestamp` hands to `new Date`. */
  function WithUtcSuffix(timestamp: string): (r: string)
    ensures HasZoneSuffix(r)
    ensures StartsWith(r, timestamp)
    ensures |timestamp| <= |r| <= |timestamp| + 1
    ensures r == timestamp <==> HasZoneSuffix(timestamp)
  {
    if HasZoneSuffix(timestamp) then timestamp
    else
      var r := timestamp + "Z";
      assert r[..|timestamp|] == timestamp;
      r
  }

  /** Applying the transform again changes nothing. */
  lemma WithUtcSuffixIdempotent(timestamp: string)
    ensures WithUtcSuffix(WithUtcSuffix(timestamp)) == WithUtcSuffix(timestamp)
  {
  }

  /** The "Z" is appended exactly when no zone designator is present. */
  lemma AppendsZExactlyWhenUnzoned(timestamp: string)
    ensures !HasZoneSuffix(timestamp) <==> WithUtcSuffix(timestamp) == timestamp + "Z"
  {
    if WithUtcSuffix(timestamp) == timestamp + "Z" {
      assert |WithUtcSuffix(timestamp)| != |timestamp|;
    }
  }

  lemma Examples()
    ensures WithUtcSuffix("2024-01-01T09:00:00") == "2024-01-01T09:00:00Z"
    ensures WithUtcSuffix("2024-01-01T09:00:00Z") == "2024-01-01T09:00:00Z"
    ensures WithUtcSuffix("2024-01-01T09:00:00+02:00") == "2024-01-01T09:00:00+02:00"
    ensures WithUtcSuffix("2024-01-01T09:00:00+0200") == "2024-01-01T09:00:00+0200Z"
  {
  }
}
