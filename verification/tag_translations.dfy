/**
 The English-to-Japanese tag dictionary of the frontend: a fixed finite
 table, a lookup that falls back to the English name, and a membership test.
 */
module TagTranslations {

  /*
   The table, in the groups the source lists it in (genre, protagonist,
   setting, mechanics, content warnings, other popular tags, themes,
   character traits). No English name occurs in two groups, so the order in
   which they are joined below does not matter; earlier groups are put on the
   right, where a lookup finds them first.
   */
  const Genres: map<string, string> := map[
    "ADV" := "アドベンチャー",
    "AVG" := "アドベンチャー",
    "Horror" := "ホラー",
    "Romance" := "ロマンス",
    "Comedy" := "コメディ",
    "Drama" := "ドラマ",
    "Fantasy" := "ファンタジー",
    "Sci-fi" := "SF",
    "Mystery" := "ミステリー",
    "Thriller" := "スリラー",
    "Action" := "アクション"
  ]

  const Protagonists: map<string, string> := map[
    "Male Protagonist" := "男性主人公",
    "Female Protagonist" := "女性主人公"
  ]

  const Settings: map<string, string> := map[
    "School Life" := "学校生活",
    "High School" := "高校",
    "School" := "学校",
    "College" := "大学",
    "Modern Day" := "現代",
    "Future" := "未来",
    "Past" := "過去",
    "Japan" := "日本",
    "Slice of Life" := "日常系"
  ]

  const Mechanics: map<string, string> := map[
    "Multiple Endings" := "マルチエンディング",
    "Choices" := "選択肢",
    "Branching Plot" := "分岐シナリオ",
    "Linear Plot" := "一本道",
    "Point and Click" := "ポイント&クリック"
  ]

  const ContentWarnings: map<string, string> := map[
    "Sexual Content" := "性的コンテンツ",
    "Eroge" := "エロゲ",
    "No Sexual Content" := "性的コンテンツなし",
    "Violence" := "暴力表現",
    "Gore" := "グロ表現"
  ]

  const Popular: map<string, string> := map[
    "Nakige" := "泣きゲー",
    "Utsuge" := "鬱ゲー",
    "Kinetic Novel" := "キネティックノベル",
    "Visual Novel" := "ビジュアルノベル",
    "RPG" := "RPG",
    "Simulation" := "シミュレーション",
    "Strategy" := "ストラテジー",
    "Puzzle" := "パズル"
  ]

  const Themes: map<string, string> := map[
    "Time Travel" := "タイムトラベル",
    "Supernatural" := "超常現象",
    "Magic" := "魔法",
    "War" := "戦争",
    "Post-apocalyptic" := "ポストアポカリプス",
    "Cyberpunk" := "サイバーパンク",
    "Steampunk" := "スチームパンク"
  ]

  const CharacterTraits: map<string, string> := map[
    "Tsundere" := "ツンデレ",
    "Yandere" := "ヤンデレ",
    "Kuudere" := "クーデレ",
    "Childhood Friend" := "幼馴染",
    "Maid" := "メイド",
    "Teacher" := "教師",
    "Student" := "学生"
  ]

  /** The translation table, English tag name to Japanese tag name. */
  const Table: map<string, string> :=
    CharacterTraits + Themes + ContentWarnings + Mechanics + Settings + Protagonists + Popular + Genres

  /** Every entry of the map is a non-empty string. */
  predicate NonEmptyValues(m: map<string, string>) {
    forall t :: t in m ==> m[t] != ""
  }

  /** A union of maps with non-empty entries has non-empty entries. */
  lemma UnionNonEmpty(a: map<string, string>, b: map<string, string>)
    requires NonEmptyValues(a) && NonEmptyValues(b)
    ensures NonEmptyValues(a + b)
  {
  }

  /** A key of the right operand of a union is looked up there. */
  lemma LookupRight(a: map<string, string>, b: map<string, string>, t: string)
    requires t in b
    ensures t in a + b && (a + b)[t] == b[t]
  {
  }

  /** A key only the left operand has is looked up there. */
  lemma LookupLeft(a: map<string, string>, b: map<string, string>, t: string)
    requires t in a && t !in b
    ensures t in a + b && (a + b)[t] == a[t]
  {
  }

  // Each group on its own has no empty entry.
  lemma GenresNonEmpty() ensures NonEmptyValues(Genres) {}
  lemma ProtagonistsNonEmpty() ensures NonEmptyValues(Protagonists) {}
  lemma SettingsNonEmpty() ensures NonEmptyValues(Settings) {}
  lemma MechanicsNonEmpty() ensures NonEmptyValues(Mechanics) {}
  lemma ContentWarningsNonEmpty() ensures NonEmptyValues(ContentWarnings) {}
  lemma PopularNonEmpty() ensures NonEmptyValues(Popular) {}
  lemma ThemesNonEmpty() ensures NonEmptyValues(Themes) {}
  lemma CharacterTraitsNonEmpty() ensures NonEmptyValues(CharacterTraits) {}

  /** No entry translates to the empty string. */
  lemma TableValuesNonEmpty()
    ensures NonEmptyValues(Table)
  {
    GenresNonEmpty();
    ProtagonistsNonEmpty();
    SettingsNonEmpty();
    MechanicsNonEmpty();
    ContentWarningsNonEmpty();
    PopularNonEmpty();
    ThemesNonEmpty();
    CharacterTraitsNonEmpty();
    var m := CharacterTraits;
    UnionNonEmpty(m, Themes);
    m := m + Themes;
    UnionNonEmpty(m, ContentWarnings);
    m := m + ContentWarnings;
    UnionNonEmpty(m, Mechanics);
    m := m + Mechanics;
    UnionNonEmpty(m, Settings);
    m := m + Settings;
    UnionNonEmpty(m, Protagonists);
    m := m + Protagonists;
    UnionNonEmpty(m, Popular);
    m := m + Popular;
    UnionNonEmpty(m, Genres);
  }

  /**
   `TAG_TRANSLATIONS[englishTag] || englishTag`: the table's entry, unless
   there is none or it is empty, in which case the tag itself.
   */
  function TranslateTag(englishTag: string): (r: string)
    ensures englishTag in Table ==> r == Table[englishTag]
    ensures englishTag !in Table ==> r == englishTag
  {
    TableValuesNonEmpty();
    assert englishTag in Table ==> Table[englishTag] != "";
    if englishTag in Table && Table[englishTag] != "" then Table[englishTag] else englishTag
  }

  /** Whether the table has an entry for the tag. */
  function HasTranslation(englishTag: string): (b: bool)
    ensures b <==> englishTag in Table
    ensures !b ==> TranslateTag(englishTag) == englishTag
    ensures b ==> TranslateTag(englishTag) in Table.Values
    ensures TranslateTag(englishTag) != englishTag ==> b
  {
    englishTag in Table
  }

  /** Both spellings of the adventure genre are in the genre group, with the same entry. */
  lemma AdventureGenres()
    ensures "ADV" in Genres && Genres["ADV"] == "アドベンチャー"
    ensures "AVG" in Genres && Genres["AVG"] == "アドベンチャー"
  {
  }

  /** Two different tags share a translation, so the table cannot be inverted. */
  lemma NotInjective()
    ensures "ADV" != "AVG"
    ensures HasTranslation("ADV") && HasTranslation("AVG")
    ensures TranslateTag("ADV") == TranslateTag("AVG") == "アドベンチャー"
  {
    var rest := CharacterTraits + Themes + ContentWarnings + Mechanics + Settings + Protagonists + Popular;
    AdventureGenres();
    LookupRight(rest, Genres, "ADV");
    LookupRight(rest, Genres, "AVG");
    assert "ADV"[1] != "AVG"[1];
  }

  /** A genre tag is translated by its entry. */
  lemma HorrorExample()
    ensures TranslateTag("Horror") == "ホラー"
  {
    var rest := CharacterTraits + Themes + ContentWarnings + Mechanics + Settings + Protagonists + Popular;
    assert Genres["Horror"] == "ホラー";
    LookupRight(rest, Genres, "Horror");
  }

  /** No group has the empty string as a key (first four groups). */
  lemma EmptyNotInFirstGroups()
    ensures "" !in Genres && "" !in Protagonists && "" !in Settings && "" !in Mechanics
  {
  }

  /** No group has the empty string as a key (last four groups). */
  lemma EmptyNotInLastGroups()
    ensures "" !in ContentWarnings && "" !in Popular && "" !in Themes && "" !in CharacterTraits
  {
  }

  /** The empty tag name has no entry, so it translates to itself. */
  lemma EmptyTagHasNoEntry()
    ensures !HasTranslation("") && TranslateTag("") == ""
  {
    EmptyNotInFirstGroups();
    EmptyNotInLastGroups();
  }

  /** `RPG` is listed among the popular tags, not among the genres. */
  lemma RpgInPopularOnly()
    ensures "RPG" in Popular && Popular["RPG"] == "RPG"
    ensures "RPG" !in Genres
  {
  }

  /** `RPG` has an entry, and the entry is `RPG` itself. */
  lemma RpgIsFixedPoint()
    ensures HasTranslation("RPG")
    ensures TranslateTag("RPG") == "RPG"
  {
    var rest := CharacterTraits + Themes + ContentWarnings + Mechanics + Settings + Protagonists;
    RpgInPopularOnly();
    LookupRight(rest, Popular, "RPG");
    LookupLeft(rest + Popular, Genres, "RPG");
  }

  /** The string starts with an ASCII character, as every English tag name does. */
  predicate AsciiStart(s: string) {
    |s| > 0 && (s[0] as int) < 128
  }

  /** Every key of the map starts with an ASCII character. */
  predicate AsciiKeys(m: map<string, string>) {
    forall t :: t in m ==> AsciiStart(t)
  }

  /** Every entry of the map is Japanese (starts outside ASCII), except `SF` and `RPG`. */
  predicate JapaneseValues(m: map<string, string>) {
    forall t :: t in m ==> !AsciiStart(m[t]) || m[t] == "SF" || m[t] == "RPG"
  }

  /** Both properties survive a union. */
  lemma UnionKeysAndValues(a: map<string, string>, b: map<string, string>)
    requires AsciiKeys(a) && AsciiKeys(b) && JapaneseValues(a) && JapaneseValues(b)
    ensures AsciiKeys(a + b) && JapaneseValues(a + b)
  {
  }

  // Each group on its own has ASCII keys and Japanese entries.
  lemma GenresShape() ensures AsciiKeys(Genres) && JapaneseValues(Genres) {}
  lemma ProtagonistsShape() ensures AsciiKeys(Protagonists) && JapaneseValues(Protagonists) {}
  lemma SettingsShape() ensures AsciiKeys(Settings) && JapaneseValues(Settings) {}
  lemma MechanicsShape() ensures AsciiKeys(Mechanics) && JapaneseValues(Mechanics) {}
  lemma ContentWarningsShape() ensures AsciiKeys(ContentWarnings) && JapaneseValues(ContentWarnings) {}
  lemma PopularShape() ensures AsciiKeys(Popular) && JapaneseValues(Popular) {}
  lemma ThemesShape() ensures AsciiKeys(Themes) && JapaneseValues(Themes) {}
  lemma CharacterTraitsShape() ensures AsciiKeys(CharacterTraits) && JapaneseValues(CharacterTraits) {}

  /** The table's keys are all ASCII-initial and its entries all Japanese, but for `SF` and `RPG`. */
  lemma TableShape()
    ensures AsciiKeys(Table) && JapaneseValues(Table)
  {
    GenresShape();
    ProtagonistsShape();
    SettingsShape();
    MechanicsShape();
    ContentWarningsShape();
    PopularShape();
    ThemesShape();
    CharacterTraitsShape();
    var m := CharacterTraits;
    UnionKeysAndValues(m, Themes);
    m := m + Themes;
    UnionKeysAndValues(m, ContentWarnings);
    m := m + ContentWarnings;
    UnionKeysAndValues(m, Mechanics);
    m := m + Mechanics;
    UnionKeysAndValues(m, Settings);
    m := m + Settings;
    UnionKeysAndValues(m, Protagonists);
    m := m + Protagonists;
    UnionKeysAndValues(m, Popular);
    m := m + Popular;
    UnionKeysAndValues(m, Genres);
  }

  /** `SF`, the entry of `Sci-fi`, is not a key of any group (first four groups). */
  lemma SfNotInFirstGroups()
    ensures "SF" !in Genres && "SF" !in Protagonists && "SF" !in Settings && "SF" !in Mechanics
  {
  }

  /** `SF` is not a key of any group (last four groups). */
  lemma SfNotInLastGroups()
    ensures "SF" !in ContentWarnings && "SF" !in Popular && "SF" !in Themes && "SF" !in CharacterTraits
  {
  }

  /**
   Translation is idempotent: a translated tag translates to itself. Japanese
   entries are not keys, `SF` is not a key, and `RPG` is its own entry.
   */
  lemma {:induction false} TranslateIdempotent(englishTag: string)
    ensures TranslateTag(TranslateTag(englishTag)) == TranslateTag(englishTag)
  {
    var v := TranslateTag(englishTag);
    if englishTag in Table {
      TableShape();
      if v == "RPG" {
        RpgIsFixedPoint();
      } else if v == "SF" {
        SfNotInFirstGroups();
        SfNotInLastGroups();
      } else {
        assert !AsciiStart(v);
        assert v !in Table;
      }
    }
  }
}
