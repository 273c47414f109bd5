/** The client configuration's address formatter. */
module Config {
  import opened Wrappers
  import opened JsStrings

  function Min(a: int, b: int): int { if a <= b then a else b }
  function Max(a: int, b: int): int { if a <= b then b else a }

  /**
   * `config.shortenAddress`: nothing for an absent or empty address,
   * otherwise the first six characters, "...", and the last four; an
   * address shorter than that contributes all of itself to each part.
   */
  function ShortenAddress(address: Option<string>): (r: string)
    ensures address.None? || address == Some("") ==> r == ""
    ensures address.Some? && address.value != "" ==>
      var a := address.value;
      r == a[..Min(6, |a|)] + "..." + a[Max(|a| - 4, 0)..]
  {
    match address
    case None => ""
    case Some(a) =>
      if a == "" then ""
      else Substring(a, 0, 6) + "..." + SubstringFrom(a, |a| - 4)
  }

  /** For an address of at least ten characters the result is 13 characters: prefix, "...", suffix. */
  lemma ShortenLongAddress(a: string)
    requires |a| >= 10
    ensures var r := ShortenAddress(Some(a));
      && |r| == 13
      && r[..6] == a[..6]
      && r[6..9] == "..."
      && r[9..] == a[|a| - 4..]
  {
  }

  /** Shorter addresses: the prefix is the whole address below six characters, the suffix below four. */
  lemma ShortenShortAddress(a: string)
    requires 0 < |a| < 10
    ensures |a| < 6 ==> ShortenAddress(Some(a))[..|a|] == a
    ensures |a| < 4 ==> ShortenAddress(Some(a)) == a + "..." + a
  {
  }
}
