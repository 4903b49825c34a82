/** Small display rules: `truncate` (app.js:1325-1328), the modal's permalink
    (app.js:1240-1242) and the wording of the stats line (app.js:1308-1314). */
module Presentation {
  import opened Text
  import opened Records

  const Ellipsis := "..."

  /** `truncate(str, maxLength)`: a text longer than `maxLength` is cut
      there and marked with "...". */
  function Truncate(s: string, maxLength: nat): (r: string)
    ensures |s| <= maxLength ==> r == s
    ensures |s| > maxLength ==> (|r| == maxLength + |Ellipsis| && r[..maxLength] == s[..maxLength]
      && r[maxLength..] == Ellipsis)
  {
    if |s| <= maxLength then s else s[..maxLength] + Ellipsis
  }

  /** Truncating never yields more than `maxLength + 3` characters, keeps a
      prefix of the text, and truncating again with the same bound changes
      nothing. */
  lemma TruncateProperties(s: string, maxLength: nat)
    ensures |Truncate(s, maxLength)| <= maxLength + |Ellipsis|
    ensures StartsWith(s, Truncate(s, maxLength)) || StartsWith(Truncate(s, maxLength), s[..maxLength])
    ensures Truncate(Truncate(s, maxLength), maxLength) == Truncate(s, maxLength)
  {
    var r := Truncate(s, maxLength);
    if |s| > maxLength {
      assert r[..maxLength] == s[..maxLength];
      assert Truncate(r, maxLength) == r[..maxLength] + Ellipsis;
    }
  }

  const RedditOrigin := "https://reddit.com"

  /** The modal link for a permalink: kept when it starts with "http",
      otherwise taken relative to reddit.com; either way it starts with
      "http" and ends with the permalink. */
  function PermalinkUrl(permalink: string): (url: string)
    ensures StartsWith(permalink, "http") ==> url == permalink
    ensures !StartsWith(permalink, "http") ==> url == RedditOrigin + permalink
    ensures StartsWith(url, "http")
    ensures |permalink| <= |url| && url[|url| - |permalink|..] == permalink
  {
    if StartsWith(permalink, "http") then permalink
    else
      var url := RedditOrigin + permalink;
      assert url[..4] == RedditOrigin[..4];
      assert url[|RedditOrigin|..] == permalink;
      url
  }

  /** A link passed through the rule again is unchanged. */
  lemma PermalinkUrlIdempotent(permalink: string)
    ensures PermalinkUrl(PermalinkUrl(permalink)) == PermalinkUrl(permalink)
  {
  }

  /** The modal shows a link only for a record with a permalink. */
  function ModalLink(r: Record): (link: Option<string>)
    ensures link.Some? <==> HasValue(r, "permalink")
    ensures link.Some? ==> link.value == PermalinkUrl(r["permalink"])
  {
    if HasValue(r, "permalink") then Some(PermalinkUrl(r["permalink"])) else None
  }

  /** The stats line: "N of M label", "M label", or nothing. */
  datatype StatsLine = CountOfTotal(count: nat, total: nat, noun: string) | TotalOnly(total: nat, noun: string) | NoStats

  /** "N of M" while a search hides some records, "M" when there are any,
      nothing otherwise. */
  function StatsText(query: string, count: nat, total: nat, noun: string): (line: StatsLine)
    ensures line.CountOfTotal? <==> query != "" && count != total
    ensures line.TotalOnly? <==> (query == "" || count == total) && total > 0
    ensures line.CountOfTotal? ==> line == CountOfTotal(count, total, noun)
    ensures line.TotalOnly? ==> line == TotalOnly(total, noun)
  {
    if query != "" && count != total then CountOfTotal(count, total, noun)
    else if total > 0 then TotalOnly(total, noun)
    else NoStats
  }
}
