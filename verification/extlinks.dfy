/**
 The external-link URL builder of the game detail page: a `(site, value)`
 pair as stored in the link tables becomes a full outbound URL, or `None`
 when the site is unknown or the value has the wrong shape for it.
 */
module ExtLinks {
  import opened Wrappers
  import opened Strings

  /** The closed set of site tags the builder knows. */
  datatype Site =
    | Dlsite | Dmm | Website | Steam | Pixiv | Booth | Twitter | Getchu
    | Gyutto | Digiket | Egs | Itch | ItchDev | Youtube | Wikidata
  {
    /** Sites whose value must be a decimal number inserted into a fixed template. */
    predicate IsNumericId() {
      Steam? || Pixiv? || Booth? || Getchu? || Gyutto? || Egs? || Wikidata?
    }
  }

  /** The string tag under which a site is stored. */
  function SiteTag(k: Site): string {
    match k
    case Dlsite => "dlsite"
    case Dmm => "dmm"
    case Website => "website"
    case Steam => "steam"
    case Pixiv => "pixiv"
    case Booth => "booth"
    case Twitter => "twitter"
    case Getchu => "getchu"
    case Gyutto => "gyutto"
    case Digiket => "digiket"
    case Egs => "egs"
    case Itch => "itch"
    case ItchDev => "itch_dev"
    case Youtube => "youtube"
    case Wikidata => "wikidata"
  }

  /** The `switch (site)` of the builder: which case label, if any, a tag hits. */
  function ParseSite(tag: string): (r: Option<Site>)
    ensures r.Some? ==> SiteTag(r.value) == tag
    ensures r.None? ==> forall k: Site :: SiteTag(k) != tag
  {
    if tag == "dlsite" then Some(Dlsite)
    else if tag == "dmm" then Some(Dmm)
    else if tag == "website" then Some(Website)
    else if tag == "steam" then Some(Steam)
    else if tag == "pixiv" then Some(Pixiv)
    else if tag == "booth" then Some(Booth)
    else if tag == "twitter" then Some(Twitter)
    else if tag == "getchu" then Some(Getchu)
    else if tag == "gyutto" then Some(Gyutto)
    else if tag == "digiket" then Some(Digiket)
    else if tag == "egs" then Some(Egs)
    else if tag == "itch" then Some(Itch)
    else if tag == "itch_dev" then Some(ItchDev)
    else if tag == "youtube" then Some(Youtube)
    else if tag == "wikidata" then Some(Wikidata)
    else None
  }

  /** Every site is found again under its own tag, so the tags are distinct. */
  lemma ParseSiteTag(k: Site)
    ensures ParseSite(SiteTag(k)) == Some(k)
  {
  }

  /** A URL shape with one hole: `prefix`, then the value, then `suffix`. */
  datatype Template = Template(prefix: string, suffix: string) {

    function Fill(v: string): string {
      prefix + v + suffix
    }

    /** Reads the value back out of a URL of this shape. */
    function Unfill(url: string): Option<string> {
      if |prefix| + |suffix| <= |url| && StartsWith(url, prefix) && EndsWith(url, suffix)
      then Some(url[|prefix|..|url| - |suffix|])
      else None
    }
  }

  /** Filling a template and reading it back gives the value that went in. */
  lemma FillThenUnfill(t: Template, v: string)
    ensures t.Unfill(t.Fill(v)) == Some(v)
    ensures StartsWith(t.Fill(v), t.prefix)
  {
    var url := t.Fill(v);
    assert url[..|t.prefix|] == t.prefix;
    assert url[|url| - |t.suffix|..] == t.suffix;
    assert url[|t.prefix|..|url| - |t.suffix|] == v;
  }

  /** A URL the template reads a value from is that value filled in. */
  lemma UnfillThenFill(t: Template, url: string)
    requires t.Unfill(url).Some?
    ensures t.Fill(t.Unfill(url).value) == url
  {
    var v := t.Unfill(url).value;
    assert url == url[..|t.prefix|] + v + url[|url| - |t.suffix|..];
  }

  const Http := "http://"
  const Https := "https://"

  const DlsiteManiax := Template(Https + "www.dlsite.com/maniax/work/=/product_id/", ".html")
  const DlsitePro := Template(Https + "www.dlsite.com/pro/work/=/product_id/", ".html")
  const DigiketItem := Template(Https + "www.digiket.com/work/show/_data/ID=ITM", "/")
  const TwitterProfile := Template(Https + "x.com/", "")
  const ItchDeveloper := Template(Https, ".itch.io/")
  const YoutubeChannel := Template(Https + "www.youtube.com/@", "")

  /** The URL template of each numeric-ID site. */
  function NumericTemplate(k: Site): (t: Template)
    requires k.IsNumericId()
    ensures StartsWith(t.prefix, Http) || StartsWith(t.prefix, Https)
  {
    match k
    case Gyutto => Template(Http + "gyutto.com/i/item", "?select_uaflag=1")
    case Getchu => Template(Https + "www.getchu.com/soft.phtml?id=", "")
    case Egs => Template(Https + "erogamescape.dyndns.org/~ap2/ero/toukei_kaiseki/game.php?game=", "")
    case Steam => Template(Https + "store.steampowered.com/app/", "/")
    case Pixiv => Template(Https + "www.pixiv.net/users/", "")
    case Booth => Template(Https + "booth.pm/ja/items/", "")
    case Wikidata => Template(Https + "www.wikidata.org/wiki/Q", "")
  }

  /** The pass-through test: the value already names an http or https URL. */
  predicate IsHttpUrl(value: string) {
    StartsWith(value, Http) || StartsWith(value, Https)
  }

  /** A URL filled into a template whose prefix is http(s) is itself http(s). */
  lemma FilledIsHttp(t: Template, v: string)
    ensures StartsWith(t.prefix, Http) || StartsWith(t.prefix, Https) ==> IsHttpUrl(t.Fill(v))
  {
    FillThenUnfill(t, v);
    if StartsWith(t.prefix, Http) {
      StartsWithTrans(t.Fill(v), t.prefix, Http);
    } else if StartsWith(t.prefix, Https) {
      StartsWithTrans(t.Fill(v), t.prefix, Https);
    }
  }

  /** dmm: protocol-relative values get `https:`, anything else `https://`. */
  function BuildDmmUrl(value: string): (url: string)
    ensures IsHttpUrl(url)
    ensures url == "https://" + (if StartsWith(value, "//") then value[2..] else value)
  {
    if StartsWith(value, "//") then
      assert value == "//" + value[2..];
      "https:" + value
    else
      "https://" + value
  }

  /** dlsite: `RJ` works live under maniax, `VJ` works under pro, nothing else is known. */
  function BuildDlsiteUrl(value: string): (r: Option<string>)
    ensures StartsWith(value, "RJ") ==> r.Some? && DlsiteManiax.Unfill(r.value) == Some(value)
    ensures !StartsWith(value, "RJ") && StartsWith(value, "VJ") ==>
      r.Some? && DlsitePro.Unfill(r.value) == Some(value)
    ensures r.Some? <==> StartsWith(value, "RJ") || StartsWith(value, "VJ")
    ensures r.Some? ==> IsHttpUrl(r.value)
  {
    if StartsWith(value, "RJ") then
      FillThenUnfill(DlsiteManiax, value);
      FilledIsHttp(DlsiteManiax, value);
      Some(DlsiteManiax.Fill(value))
    else if StartsWith(value, "VJ") then
      FillThenUnfill(DlsitePro, value);
      FilledIsHttp(DlsitePro, value);
      Some(DlsitePro.Fill(value))
    else
      None
  }

  /** digiket: a decimal number, zero-padded to at least seven digits after `ITM`. */
  function BuildDigiketUrl(value: string): (r: Option<string>)
    ensures r.Some? <==> IsDigits(value)
    ensures r.Some? ==>
      var id := DigiketItem.Unfill(r.value);
      && id.Some?
      && IsDigits(id.value)
      && |id.value| == (if |value| < 7 then 7 else |value|)
      && EndsWith(id.value, value)
      && DigitsValue(id.value) == DigitsValue(value)
    ensures r.Some? ==> IsHttpUrl(r.value)
  {
    if IsDigits(value) then
      var padded := PadStart(value, 7, '0');
      PadStartKeepsValue(value, 7);
      FillThenUnfill(DigiketItem, padded);
      FilledIsHttp(DigiketItem, padded);
      Some(DigiketItem.Fill(padded))
    else
      None
  }

  /** The seven plain numeric-ID sites: the digits go into the template verbatim. */
  function BuildNumericUrl(t: Template, value: string): (r: Option<string>)
    ensures r.Some? <==> IsDigits(value)
    ensures r.Some? ==> t.Unfill(r.value) == Some(value)
    ensures r.Some? && (StartsWith(t.prefix, Http) || StartsWith(t.prefix, Https)) ==> IsHttpUrl(r.value)
  {
    if IsDigits(value) then
      FillThenUnfill(t, value);
      FilledIsHttp(t, value);
      Some(t.Fill(value))
    else
      None
  }

  /** twitter: at most one leading `@` is dropped; an empty handle is rejected. */
  function BuildTwitterUrl(value: string): (r: Option<string>)
    ensures r.None? <==> value == "" || value == "@"
    ensures r.Some? && StartsWith(value, "@") ==> TwitterProfile.Unfill(r.value) == Some(value[1..])
    ensures r.Some? && !StartsWith(value, "@") ==> TwitterProfile.Unfill(r.value) == Some(value)
    ensures r.Some? ==> IsHttpUrl(r.value)
  {
    var trimmed := if |value| > 0 && value[0] == '@' then value[1..] else value;
    if |trimmed| == 0 then
      None
    else
      FillThenUnfill(TwitterProfile, trimmed);
      FilledIsHttp(TwitterProfile, trimmed);
      assert |value| > 0 && value[0] == '@' ==> value == "@" + trimmed;
      Some(TwitterProfile.Fill(trimmed))
  }

  /**
   itch: `user/game`. The first two pieces of `value.split("/")` are used;
   a missing separator or an empty first or second piece is rejected, and
   any further pieces are ignored.
   */
  function BuildItchUrl(value: string): (r: Option<string>)
    ensures r.Some? <==>
      '/' in value && Split(value, '/')[0] != "" && Split(value, '/')[1] != ""
    ensures r.Some? ==>
      var parts := Split(value, '/');
      r.value == "https://" + parts[0] + ".itch.io/" + parts[1]
    ensures r.Some? ==> IsHttpUrl(r.value)
  {
    if '/' !in value then
      None
    else
      var parts := Split(value, '/');
      var user := parts[0];
      var game := parts[1];
      if user == "" || game == "" then None
      else
        assert "https://" + user + ".itch.io/" + game == Https + (user + ".itch.io/" + game);
        Some("https://" + user + ".itch.io/" + game)
  }

  /** itch_dev: any non-empty developer name becomes a subdomain. */
  function BuildItchDevUrl(value: string): (r: Option<string>)
    ensures r.Some? <==> value != ""
    ensures r.Some? ==> ItchDeveloper.Unfill(r.value) == Some(value)
    ensures r.Some? ==> IsHttpUrl(r.value)
  {
    if |value| == 0 then
      None
    else
      FillThenUnfill(ItchDeveloper, value);
      FilledIsHttp(ItchDeveloper, value);
      Some(ItchDeveloper.Fill(value))
  }

  /** youtube: any non-empty value becomes an `@` channel handle; no `@` is stripped. */
  function BuildYoutubeUrl(value: string): (r: Option<string>)
    ensures r.Some? <==> value != ""
    ensures r.Some? ==> YoutubeChannel.Unfill(r.value) == Some(value)
    ensures r.Some? ==> IsHttpUrl(r.value)
  {
    if |value| == 0 then
      None
    else
      FillThenUnfill(YoutubeChannel, value);
      FilledIsHttp(YoutubeChannel, value);
      Some(YoutubeChannel.Fill(value))
  }

  /** The per-site rules of the `switch (site)`; every rule but `website` yields http(s) URLs. */
  function BuildForSite(k: Site, value: string): (r: Option<string>)
    ensures k != Website && r.Some? ==> IsHttpUrl(r.value)
  {
    match k
    case Dlsite => BuildDlsiteUrl(value)
    case Dmm => Some(BuildDmmUrl(value))
    case Website => Some(value)
    case Digiket => BuildDigiketUrl(value)
    case Twitter => BuildTwitterUrl(value)
    case Itch => BuildItchUrl(value)
    case ItchDev => BuildItchDevUrl(value)
    case Youtube => BuildYoutubeUrl(value)
    case _ => BuildNumericUrl(NumericTemplate(k), value)
  }

  /**
   The builder: a value that is already an http(s) URL passes through for
   every site; otherwise the site's rule applies, and an unknown site tag
   gives `None`.
   */
  function BuildExternalUrl(site: string, value: string): (r: Option<string>)
    ensures IsHttpUrl(value) ==> r == Some(value)
    ensures !IsHttpUrl(value) && (forall k: Site :: SiteTag(k) != site) ==> r.None?
    ensures site != SiteTag(Website) && r.Some? ==> IsHttpUrl(r.value)
  {
    if IsHttpUrl(value) then
      Some(value)
    else
      match ParseSite(site)
      case None => None
      case Some(k) => BuildForSite(k, value)
  }

  /** A known site tag selects that site's rule for any value that is not already a URL. */
  lemma ExternalUrlDispatch(k: Site, value: string)
    requires !IsHttpUrl(value)
    ensures BuildExternalUrl(SiteTag(k), value) == BuildForSite(k, value)
  {
    ParseSiteTag(k);
  }

  /**
   Normalising is idempotent: a URL the builder produced (outside the
   `website` identity rule) passes through unchanged under any site tag.
   */
  lemma NormalizedUrlIsFixedPoint(site: string, value: string, otherSite: string)
    requires site != "website"
    requires BuildExternalUrl(site, value).Some?
    ensures var url := BuildExternalUrl(site, value).value;
      BuildExternalUrl(otherSite, url) == Some(url)
  {
  }

  /** `website` hands back the stored value as the URL, whatever it is. */
  lemma WebsiteIsIdentity(value: string)
    ensures BuildExternalUrl("website", value) == Some(value)
  {
  }

  /** For a numeric-ID site the URL exists exactly for digit strings and carries them verbatim. */
  lemma NumericSiteRule(k: Site, value: string)
    requires k.IsNumericId()
    ensures IsDigits(value) ==> BuildExternalUrl(SiteTag(k), value) == Some(NumericTemplate(k).Fill(value))
    ensures !IsDigits(value) && !IsHttpUrl(value) ==> BuildExternalUrl(SiteTag(k), value) == None
  {
    var r := BuildExternalUrl(SiteTag(k), value);
    ParseSiteTag(k);
    if IsDigits(value) {
      assert !IsHttpUrl(value) by {
        assert value[0] != 'h';
      }
      UnfillThenFill(NumericTemplate(k), r.value);
    }
  }

  /** A `user/game` value, possibly followed by more `/` pieces, links to the game page. */
  lemma ItchUserGame(user: string, game: string, rest: string)
    requires user != "" && game != ""
    requires '/' !in user && '/' !in game
    requires rest == "" || rest[0] == '/'
    ensures BuildItchUrl(user + "/" + game + rest) == Some("https://" + user + ".itch.io/" + game)
  {
    ItchPieces(user, game, rest);
  }

  /** Only the first two pieces count: whatever follows `user/game/` is dropped. */
  lemma ItchDropsExtraPieces(user: string, game: string, more: string)
    requires user != "" && game != ""
    requires '/' !in user && '/' !in game
    ensures BuildItchUrl(user + "/" + game + "/" + more) == BuildItchUrl(user + "/" + game)
  {
    assert user + "/" + game + "/" + more == user + "/" + game + ("/" + more);
    ItchUserGame(user, game, "/" + more);
    ItchSingleSlash(user, game);
  }

  /** Splitting `user/game<rest>` at '/' gives `user` and `game` as its first two pieces. */
  lemma ItchPieces(user: string, game: string, rest: string)
    requires '/' !in user && '/' !in game
    requires rest == "" || rest[0] == '/'
    ensures var parts := Split(user + "/" + game + rest, '/');
      |parts| >= 2 && parts[0] == user && parts[1] == game
  {
    var tail := game + rest;
    assert user + "/" + game + rest == user + ['/'] + tail;
    SplitAtFirst(user, '/', tail);
    LeadingPiece(game, rest);
  }

  /** A separator-free `game`, then nothing or a separator: `game` is the first piece. */
  lemma LeadingPiece(game: string, rest: string)
    requires '/' !in game
    requires rest == "" || rest[0] == '/'
    ensures Split(game + rest, '/')[0] == game
  {
    if rest == "" {
      assert game + rest == game;
      SplitNoSeparator(game, '/');
    } else {
      assert game + rest == game + ['/'] + rest[1..];
      SplitAtFirst(game, '/', rest[1..]);
    }
  }

  /** twitter: `@handle` and `handle` give the same profile URL. */
  lemma TwitterAtIsOptional(handle: string)
    requires handle != "" && handle[0] != '@'
    ensures BuildTwitterUrl("@" + handle) == BuildTwitterUrl(handle)
    ensures BuildTwitterUrl(handle) == Some("https://x.com/" + handle)
  {
    assert ("@" + handle)[1..] == handle;
    assert TwitterProfile.Fill(handle) == "https://x.com/" + handle;
  }

  /** A value that does not start with `h` is never taken for a URL. */
  lemma NotHttp(value: string)
    requires |value| > 0 && value[0] != 'h'
    ensures !IsHttpUrl(value)
  {
    assert Http[0] == 'h' && Https[0] == 'h';
  }

  /** Worked examples of each rule family. */
  lemma DigiketExample()
    ensures BuildExternalUrl("digiket", "42") == Some(DigiketItem.Fill("0000042"))
    ensures BuildExternalUrl("digiket", "1234567") == Some(DigiketItem.Fill("1234567"))
    ensures BuildExternalUrl("digiket", "4a") == None
  {
    NotHttp("42");
    NotHttp("1234567");
    NotHttp("4a");
    assert PadStart("42", 7, '0') == "0000042";
    assert !IsDigits("4a") by { assert !IsDigit("4a"[1]); }
  }

  lemma SteamExample()
    ensures BuildExternalUrl("steam", "123") == Some(NumericTemplate(Steam).Fill("123"))
    ensures BuildExternalUrl("steam", "abc") == None
    ensures BuildExternalUrl("steam", "") == None
  {
    NotHttp("123");
    NotHttp("abc");
    assert !IsDigits("abc") by { assert !IsDigit("abc"[0]); }
  }

  lemma DlsiteExample()
    ensures BuildExternalUrl("dlsite", "RJ123456") == Some(DlsiteManiax.Fill("RJ123456"))
    ensures BuildExternalUrl("dlsite", "VJ000111") == Some(DlsitePro.Fill("VJ000111"))
    ensures BuildExternalUrl("dlsite", "XX000111") == None
  {
    NotHttp("RJ123456");
    NotHttp("VJ000111");
    NotHttp("XX000111");
  }

  /** Exactly one `/` between two non-empty pieces: the pieces become subdomain and path. */
  lemma ItchSingleSlash(user: string, game: string)
    requires user != "" && game != ""
    requires '/' !in user && '/' !in game
    ensures BuildItchUrl(user + "/" + game) == Some("https://" + user + ".itch.io/" + game)
  {
    assert user + "/" + game + "" == user + "/" + game;
    ItchUserGame(user, game, "");
  }

  lemma ItchNoSlashExample()
    ensures BuildExternalUrl("itch", "no-slash") == None
  {
    var v := "no-slash";
    NotHttp(v);
    assert forall i | 0 <= i < |v| :: v[i] != '/';
  }

  lemma TwitterExample()
    ensures BuildExternalUrl("twitter", "@someuser") == BuildExternalUrl("twitter", "someuser")
    ensures BuildExternalUrl("twitter", "someuser") == Some(TwitterProfile.Fill("someuser"))
    ensures BuildExternalUrl("twitter", "@@someuser") == Some(TwitterProfile.Fill("@someuser"))
    ensures BuildExternalUrl("twitter", "") == None
    ensures BuildExternalUrl("twitter", "@") == None
  {
    NotHttp("@someuser");
    NotHttp("someuser");
    NotHttp("@@someuser");
    NotHttp("@");
    TwitterAtIsOptional("someuser");
    assert "@@someuser"[1..] == "@someuser";
  }

  lemma UnknownSiteExample()
    ensures BuildExternalUrl("fanza", "123") == None
  {
  }
}
