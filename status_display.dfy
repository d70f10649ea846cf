/** The two display helpers of the order page: the badge class of a status
    and the human-readable form of a status (or of a payment method). */
module StatusDisplay {
  import opened Orders

  /** The badge class of any status the page does not know. */
  const DefaultBadge: string := "bg-secondary text-white"

  /** Every class a badge can get. */
  const BadgeClasses: set<string> := {
    "bg-warning text-dark", "bg-info text-white", "bg-primary text-white",
    "bg-success text-white", "bg-danger text-white", DefaultBadge
  }

  /** The page's `switch` on the status.  Each accepted status has a class
      of its own, different from the default one every other string gets. */
  function StatusBadgeClass(status: string): (r: string)
    ensures r in BadgeClasses
    ensures IsValidStatus(status) <==> r != DefaultBadge
  {
    if status == Pending then "bg-warning text-dark"
    else if status == Processing then "bg-info text-white"
    else if status == Shipped then "bg-primary text-white"
    else if status == Delivered then "bg-success text-white"
    else if status == Cancelled then "bg-danger text-white"
    else DefaultBadge
  }

  /** No two accepted statuses share a badge class. */
  lemma BadgeClassesDistinct(s: string, t: string)
    requires IsValidStatus(s) && IsValidStatus(t) && s != t
    ensures StatusBadgeClass(s) != StatusBadgeClass(t)
  {
  }

  /** The upper-casing of `ucfirst`: ASCII letters only. */
  function AsciiUpper(c: char): (u: char)
    ensures 'a' <= c <= 'z' ==> 'A' <= u <= 'Z' && u as int == c as int - 32
    ensures !('a' <= c <= 'z') ==> u == c
  {
    if 'a' <= c <= 'z' then (c as int - 32) as char else c
  }

  /** `str_replace('_', ' ', s)`. */
  function ReplaceUnderscores(s: string): (r: string)
    ensures |r| == |s|
    ensures forall i :: 0 <= i < |s| ==> r[i] == if s[i] == '_' then ' ' else s[i]
  {
    if s == [] then []
    else [if s[0] == '_' then ' ' else s[0]] + ReplaceUnderscores(s[1..])
  }

  /** `ucfirst(str_replace('_', ' ', s))`: as long as its input, with no
      underscore left; only the first character may be upper-cased, every
      other one is the input's with `_` turned into a space. */
  function FormatStatus(s: string): (r: string)
    ensures |r| == |s|
    ensures '_' !in r
    ensures |s| > 0 ==> r[0] == AsciiUpper(if s[0] == '_' then ' ' else s[0])
    ensures forall i :: 0 < i < |s| ==> r[i] == if s[i] == '_' then ' ' else s[i]
  {
    var t := ReplaceUnderscores(s);
    if t == [] then t else [AsciiUpper(t[0])] + t[1..]
  }

  /** Formatting a formatted status changes nothing more. */
  lemma FormatStatusIdempotent(s: string)
    ensures FormatStatus(FormatStatus(s)) == FormatStatus(s)
  {
  }

  /** A string without underscores only has its first letter upper-cased. */
  lemma FormatWithoutUnderscores(s: string)
    requires |s| > 0 && '_' !in s
    ensures FormatStatus(s) == [AsciiUpper(s[0])] + s[1..]
  {
  }

  /** The page shows each accepted status with only its first letter
      upper-cased ("pending" reads "Pending"). */
  lemma FormattedStatus(s: string)
    requires IsValidStatus(s)
    ensures FormatStatus(s) == [AsciiUpper(s[0])] + s[1..]
    ensures 'A' <= FormatStatus(s)[0] <= 'Z'
  {
    assert s == Pending || s == Processing || s == Shipped || s == Delivered || s == Cancelled;
    assert '_' !in s && 'a' <= s[0] <= 'z';
    FormatWithoutUnderscores(s);
  }
}
