# eroge-db link and tag core, in Dafny

This project models the three pieces of pure logic in the eroge-db catalogue
browser (a Next.js frontend over a PostgreSQL copy of VNDB visual-novel data):

- **External-link URL builder** (`buildExternalUrl`). It turns a stored
  `(site, value)` pair into an outbound URL, or `null`. A value that is
  already an `http://` or `https://` URL passes through unchanged. Otherwise
  one of fifteen per-site rules applies: numeric IDs in a template,
  seven-digit zero padding for digiket, the `RJ`/`VJ` split for dlsite,
  protocol completion for dmm, `@` stripping for twitter, a `user/game` split
  for itch, and non-empty checks for itch_dev and youtube. Unknown sites give
  `null`, modelled as `None`.
- **Tag translation table** (`translateTag`, `hasTranslation`). It is a fixed
  English-to-Japanese map with the English name as fallback.
- **Tag-annotation pass** of the maintenance script. For every fetched game,
  each tag without `name_ja` gets one from the same dictionary. The game is
  written back and counted when a tag changed.

Modules:

- `Wrappers` (wrappers.dfy): `Option` and `Result`.
- `Strings` (strings.dfy): the JavaScript string operations the builder uses
  (`startsWith`, the `^[0-9]+$` test, `padStart`, `split`), with `Join` as the
  inverse of `Split`.
- `ExtLinks` (extlinks.dfy): site tags as a closed datatype. Each URL shape is
  a `Template` with a hole. `Fill` puts a value into the hole and `Unfill`
  reads it back out. The builders' contracts say what can be read back from
  the URL they produce.
- `TagTranslations` (tag_translations.dfy): the table, split into the eight
  groups the source lists.
- `TagAnnotation` (tag_annotation.dfy): tags as JSON objects, the functional
  pass `Pass`, and the two loops as methods proved equal to it.

The Python dictionary at update_tag_translations.py:16-72 holds the same 54
pairs, in the same order, as the frontend table at
frontend/lib/tagTranslations.ts:9-79. The model defines the table once, as
`TagTranslations.Table`. The script's functions take the dictionary as a
parameter (`TagAnnotation.Dictionary`), so their properties hold for any
dictionary. `TagAnnotation.ScriptTableMatchesFrontend` ties the script to the
shared table: with it, Python's `dict.get(name, name)` and the frontend's
`translateTag` agree on every string.

Three per-site rules are easy to misread:

- itch reads only the first two `/`-pieces of the value and ignores the rest,
  so `a/b/c` gives `https://a.itch.io/b` (`ExtLinks.ItchDropsExtraPieces`).
- youtube puts the value after `@` unchanged. Only twitter strips a leading
  `@`.
- website returns the stored value as the URL, even when it is empty or not
  a URL.

## Model

| member | source | states |
|---|---|---|
| `Strings.PadStart` | frontend/lib/extlinks.ts:35 | `padStart` keeps strings of at least the width as they are. It left-fills shorter ones with the fill character up to the width. The original string is always the suffix. |
| `Strings.PadStartKeepsValue` | frontend/lib/extlinks.ts:35 | Zero-padding a digit string gives a digit string that denotes the same number, so padding never changes the digiket item number. |
| `Strings.Split` | frontend/lib/extlinks.ts:93 | `split("/")` gives at least one piece and no piece contains the separator. Joining the pieces with the separator gives back the input. There is more than one piece exactly when the separator occurs. |
| `Strings.SplitAtFirst` | frontend/lib/extlinks.ts:93 | The first piece is everything before the first separator. The rest is the split of what follows it. |
| `ExtLinks.ParseSite` | frontend/lib/extlinks.ts:125-158 | The `switch` selects a site exactly when the tag is one of the fifteen case labels, and the selected site has that label. Any other tag selects nothing. |
| `ExtLinks.ParseSiteTag` | frontend/lib/extlinks.ts:125-158 | Each of the fifteen case labels selects its own site, so no two sites share a label. |
| `ExtLinks.NumericTemplate` | frontend/lib/extlinks.ts:39-119 | Every numeric-ID site's URL template (the six builders at lines 39-79 and wikidata at lines 114-119) starts with `http://` or `https://`. |
| `ExtLinks.BuildNumericUrl` | frontend/lib/extlinks.ts:60-65 | A numeric-ID rule produces a URL exactly for non-empty ASCII-digit strings. The ID reads back out of the URL verbatim, and the URL is http(s). |
| `ExtLinks.NumericSiteRule` | frontend/lib/extlinks.ts:39-119 | For steam, pixiv, booth, getchu, gyutto and egs (lines 39-79) and wikidata (lines 114-119), the builder gives the site template filled with the digits. A value that is neither digits nor a URL gives `null`. |
| `ExtLinks.BuildDmmUrl` | frontend/lib/extlinks.ts:14-19 | dmm never fails and always yields an http(s) URL: `https://` followed by the value with one leading `//` removed. |
| `ExtLinks.BuildDlsiteUrl` | frontend/lib/extlinks.ts:21-29 | `RJ` values read back from the maniax template and `VJ` values from the pro template. Any other prefix gives `null`. |
| `ExtLinks.BuildDigiketUrl` | frontend/lib/extlinks.ts:31-37 | Only digit strings are accepted. The ID after `ITM` is a digit string of length max(7, input length) that ends with the input and denotes the same number. |
| `ExtLinks.BuildTwitterUrl` | frontend/lib/extlinks.ts:81-87 | Only `""` and `"@"` are rejected. A value starting with `@` loses exactly that one `@`: the handle read back from the profile URL is the rest of the value. Any other value reads back unchanged. |
| `ExtLinks.TwitterAtIsOptional` | frontend/lib/extlinks.ts:81-87 | `@handle` and `handle` give the same profile URL `https://x.com/handle`. |
| `ExtLinks.BuildItchUrl` | frontend/lib/extlinks.ts:89-98 | An itch URL exists exactly when the value contains `/` and its first two `/`-pieces are non-empty. Those two pieces become subdomain and path. |
| `ExtLinks.ItchUserGame` | frontend/lib/extlinks.ts:89-98 | `user/game` followed by any further `/`-pieces gives `https://user.itch.io/game`: extra pieces are dropped, not rejected. |
| `ExtLinks.ItchSingleSlash` | frontend/lib/extlinks.ts:89-98 | Two non-empty slash-free pieces joined by one `/` give `https://user.itch.io/game`. |
| `ExtLinks.ItchDropsExtraPieces` | frontend/lib/extlinks.ts:93-97 | `user/game/anything` gives the same URL as `user/game`: only the first two pieces are read. |
| `ExtLinks.ItchPieces` | frontend/lib/extlinks.ts:93-95 | Splitting `user/game` plus nothing or a further `/`-piece yields `user` and `game` as the first two pieces. |
| `ExtLinks.BuildItchDevUrl` | frontend/lib/extlinks.ts:100-105 | A developer URL exists exactly for non-empty values, and the value reads back as the subdomain. |
| `ExtLinks.BuildYoutubeUrl` | frontend/lib/extlinks.ts:107-112 | A channel URL exists exactly for non-empty values. The value reads back after `@` unchanged. |
| `ExtLinks.BuildForSite` | frontend/lib/extlinks.ts:125-158 | Every per-site rule except `website` yields only http(s) URLs. |
| `ExtLinks.BuildExternalUrl` | frontend/lib/extlinks.ts:121-159 | An http(s) value passes through for every site. A non-URL value with an unknown site gives `null`. Any site tag other than `website` yields only http(s) URLs. |
| `ExtLinks.ExternalUrlDispatch` | frontend/lib/extlinks.ts:125-158 | For a non-URL value, a known site tag applies exactly that site's rule. |
| `ExtLinks.NormalizedUrlIsFixedPoint` | frontend/lib/extlinks.ts:10-12 | Normalising is idempotent: a URL built by any rule but `website` passes through unchanged under every site tag. |
| `ExtLinks.WebsiteIsIdentity` | frontend/lib/extlinks.ts:130-131 | `website` returns the stored value as the URL, whatever it is. |
| `ExtLinks.DigiketExample` | frontend/lib/extlinks.ts:31-37 | `42` becomes item `0000042`, a seven-digit value stays as it is, and `4a` is rejected. |
| `ExtLinks.SteamExample` | frontend/lib/extlinks.ts:60-65 | `123` fills the steam app template, and `abc` and the empty string are rejected. |
| `ExtLinks.DlsiteExample` | frontend/lib/extlinks.ts:21-29 | `RJ123456` goes to maniax, `VJ000111` to pro, and `XX000111` is rejected. |
| `ExtLinks.ItchNoSlashExample` | frontend/lib/extlinks.ts:90-92 | A value without `/` is rejected. |
| `ExtLinks.TwitterExample` | frontend/lib/extlinks.ts:81-87 | `@someuser` and `someuser` agree, and `@@someuser` keeps one `@`. `""` and `"@"` are rejected. |
| `ExtLinks.UnknownSiteExample` | frontend/lib/extlinks.ts:156-157 | An unlisted site tag with a non-URL value gives `null`. |
| `TagTranslations.TableValuesNonEmpty` | frontend/lib/tagTranslations.ts:9-79 | No table entry is the empty string, so the `\|\|` fallback never fires for a key of the table. |
| `TagTranslations.TranslateTag` | frontend/lib/tagTranslations.ts:86-88 | A key of the table translates to its entry. Any other tag translates to itself. |
| `TagTranslations.HasTranslation` | frontend/lib/tagTranslations.ts:95-97 | True exactly for the keys of the table. A tag without an entry is left unchanged by `translateTag`. A tag with one translates to a value of the table. Every tag that `translateTag` changes has an entry. |
| `TagTranslations.NotInjective` | frontend/lib/tagTranslations.ts:11-12 | `ADV` and `AVG` are distinct keys with the same translation `アドベンチャー`. |
| `TagTranslations.RpgIsFixedPoint` | frontend/lib/tagTranslations.ts:57 | `RPG` has an entry, and that entry is `RPG`, so "has a translation" and "is changed by translation" differ. |
| `TagTranslations.HorrorExample` | frontend/lib/tagTranslations.ts:13 | `Horror` translates to `ホラー`. |
| `TagTranslations.EmptyTagHasNoEntry` | frontend/lib/tagTranslations.ts:86-88 | The empty name has no entry and translates to itself. |
| `TagTranslations.TranslateIdempotent` | frontend/lib/tagTranslations.ts:9-88 | Translating twice is translating once, for every tag. The one entry that is also a key, `RPG`, is its own entry. |
| `TagTranslations.TableShape` | frontend/lib/tagTranslations.ts:9-79 | Every key starts with an ASCII character. Every entry starts with a Japanese character, except `SF` and `RPG`. |
| `TagAnnotation.Translate` | update_tag_translations.py:111 | `dict.get(name, name)`: a string name with an entry gives the entry. Any other hashable name is its own fallback. A list or object name raises. |
| `TagAnnotation.ScriptTableMatchesFrontend` | update_tag_translations.py:111 | With the shared table, the script translates a string name exactly as the frontend's `translateTag` does. |
| `TagAnnotation.AnnotateTag` | update_tag_translations.py:107-112 | A tag with `name_ja` is kept exactly. A tag without it gains only `name_ja`, set to `dict.get(name, name)`. It fails exactly when that name is unhashable. Every existing field keeps its value. |
| `TagAnnotation.MissingNameGivesEmpty` | update_tag_translations.py:108 | With the script's table, a tag with neither `name` nor `name_ja` gets `name_ja = ''`. |
| `TagAnnotation.AnnotateExample` | update_tag_translations.py:108-111 | With the script's table, `{name: Horror, rating}` gains `name_ja = ホラー` and keeps its rating. |
| `TagAnnotation.AnnotateTags` | update_tag_translations.py:107-112 | The tag list keeps its length and order, and each tag is annotated in place. After the loop every tag has `name_ja`. It fails exactly when some tag's annotation fails. |
| `TagAnnotation.AnnotatedTagsAreFixed` | update_tag_translations.py:110 | A list whose tags all have `name_ja` comes through the loop unchanged. |
| `TagAnnotation.RowStep` | update_tag_translations.py:102-112 | One row fails exactly when its tag list fails. Otherwise the row keeps its game id and gets its annotated tags; an empty list is kept as it is. |
| `TagAnnotation.Pass` | update_tag_translations.py:101-121 | A completed pass reports one row per fetched row. The number of rows written is the number of rows with a tag lacking `name_ja`, which is at most the number fetched. |
| `TagAnnotation.PassFailsExactlyWhenTagsFail` | update_tag_translations.py:101-121 | The pass aborts if and only if some fetched row's tags cannot be annotated. |
| `TagAnnotation.PassAnnotatesEveryRow` | update_tag_translations.py:101-112 | After a completed pass, each row keeps its position and game id and carries its annotated tags. |
| `TagAnnotation.PassSnoc` | update_tag_translations.py:101-121 | The pass over the rows so far plus one more row either aborts on that row or extends the report by it. |
| `TagAnnotation.EmptyRowIsSkipped` | update_tag_translations.py:102-103 | A row with an empty tag list is neither changed nor written. |
| `TagAnnotation.WrittenWhenLacking` | update_tag_translations.py:106-121 | Every row one of whose tags lacked `name_ja` is written back with its annotated tags. |
| `TagAnnotation.WrittenOnlyWhenLacking` | update_tag_translations.py:106-121 | Every written row is the annotated form of a fetched row one of whose tags lacked `name_ja`. |
| `TagAnnotation.PassCompletes` | update_tag_translations.py:107-112 | After a successful pass every tag of every row has `name_ja`. |
| `TagAnnotation.SecondPassWritesNothing` | update_tag_translations.py:107-115 | Idempotence: a second pass over the rows the first pass left behind changes nothing and writes nothing. |
| `TagAnnotation.AnnotateRowTags` | update_tag_translations.py:105-112 | The inner loop computes the annotated list. Its `updated` flag is set exactly when some tag lacked `name_ja`. |
| `TagAnnotation.ProcessRow` | update_tag_translations.py:101-115 | One turn of the outer loop computes `RowStep`, and its `updated` flag is set exactly when a tag lacked `name_ja`. |
| `TagAnnotation.UpdateTagTranslations` | update_tag_translations.py:100-121 | The outer loop rolls back exactly when the pass aborts. Otherwise it commits the rows `Pass` describes, and `updated_count` equals the number of rows written, at most the number of rows fetched. |

## Left out

- Database access: the `SELECT`, each `UPDATE`, commit, rollback and closing the connection. Rows arrive as a sequence and the writes leave as a sequence. A rollback is the `RolledBack` outcome.
- Printing and progress messages of the script.
- Row shape: the model assumes a `tags` column holding a JSON array of JSON objects, as the ingest script stores it. A JSON `null` column behaves like an empty list: both are skipped. Array elements that are not objects would raise `AttributeError`; that case is not modelled.
- JSON numbers are modelled as mathematical reals, not as binary floating point. Key order inside a tag object is not modelled: `name_ja` is appended last in Python, and JSONB storage does not keep key order anyway.
- JavaScript object semantics of the frontend table: `in` and indexing on a plain object also see inherited keys such as `toString`. The model treats the table as a finite map of its 54 entries.
- JavaScript strings are UTF-16 code units; the model uses Unicode characters. Every length test in the builder is an emptiness test or applies to ASCII digits, where the two agree.
- The regular expression engine: `/^[0-9]+$/` is modelled as "non-empty and every character in `0`..`9`". `padStart` is modelled only for a one-character fill string.
- Page composition, connection pooling, React rendering (`GameCard.tsx`, the page components), the VNDB API clients and the ingest script's upsert are I/O or presentation, not core logic.
- `TagAnnotation.AnnotateRowTags`: the `updated` flag is only specified when the loop completes, because on an unhashable name the script raises and the flag is never read.
