/**
 The per-game loop of the tag-translation maintenance script: every tag of a
 game's tag list that has no `name_ja` field gets one, looked up in the
 translation dictionary by the tag's `name`; a game whose list changed is
 written back and counted. The SQL around the loop is not modelled: rows
 come in as a sequence, and the writes go out as a sequence.
 */
module TagAnnotation {
  import opened Wrappers
  import TagTranslations

  /** A JSON value as the database driver hands it back from a JSONB column. */
  datatype Json =
    | JNull
    | JBool(b: bool)
    | JNumber(n: real)
    | JString(s: string)
    | JArray(items: seq<Json>)
    | JObject(fields: map<string, Json>)

  /** Lists and dicts cannot be dictionary keys; looking one up raises TypeError. */
  predicate Hashable(j: Json) {
    !j.JArray? && !j.JObject?
  }

  /** One tag of a game: a JSON object, field name to value. */
  type Tag = map<string, Json>

  /** A fetched row: the game's id and its tag list. */
  datatype Row = Row(gameId: string, tags: seq<Tag>)

  /** The exception that aborts the pass; the transaction is then rolled back. */
  datatype Raised = UnhashableName

  const NameKey := "name"
  const NameJaKey := "name_ja"

  /** `tag.get('name', '')`. */
  function NameOf(tag: Tag): Json {
    if NameKey in tag then tag[NameKey] else JString("")
  }

  /**
   The script's translation dictionary, `TAG_TRANSLATIONS`: tag name to
   Japanese name. The model takes it as a parameter; the script's own
   dictionary is the frontend's table (see `ScriptTableMatchesFrontend`).
   */
  type Dictionary = map<string, string>

  /**
   `TAG_TRANSLATIONS.get(name, name)`: the dictionary's entry for a string
   name, the name itself otherwise. The keys are strings, so no other value is
   ever found; a list or dict cannot be looked up at all.
   */
  function Translate(translations: Dictionary, name: Json): (r: Result<Json, Raised>)
    ensures r.Failure? <==> !Hashable(name)
    ensures name.JString? && name.s in translations ==> r == Success(JString(translations[name.s]))
    ensures Hashable(name) && !(name.JString? && name.s in translations) ==> r == Success(name)
  {
    match name
    case JString(s) =>
      if s in translations then Success(JString(translations[s])) else Success(name)
    case JArray(_) => Failure(UnhashableName)
    case JObject(_) => Failure(UnhashableName)
    case _ => Success(name)
  }

  /**
   With the script's dictionary, `dict.get(name, name)` translates a string
   name exactly as the frontend's `translateTag` does: the two agree because
   no entry of the table is the empty string.
   */
  lemma ScriptTableMatchesFrontend(name: string)
    ensures Translate(TagTranslations.Table, JString(name)) == Success(JString(TagTranslations.TranslateTag(name)))
  {
  }

  /**
   The loop body for one tag: a tag that has `name_ja` is left as it is;
   one that lacks it gains `name_ja` and nothing else.
   */
  function AnnotateTag(translations: Dictionary, tag: Tag): (r: Result<Tag, Raised>)
    ensures NameJaKey in tag ==> r == Success(tag)
    ensures NameJaKey !in tag ==> (r.Success? <==> Hashable(NameOf(tag)))
    ensures r.Success? ==> r.value.Keys == tag.Keys + {NameJaKey}
    ensures r.Success? ==> forall k :: k in tag ==> r.value[k] == tag[k]
    ensures r.Success? && NameJaKey !in tag ==> Translate(translations, NameOf(tag)) == Success(r.value[NameJaKey])
  {
    if NameJaKey in tag then
      Success(tag)
    else
      match Translate(translations, NameOf(tag))
      case Failure(e) => Failure(e)
      case Success(ja) => Success(tag[NameJaKey := ja])
  }

  /** Some tag of the list lacks `name_ja`: the condition under which `updated` is set. */
  predicate NeedsUpdate(tags: seq<Tag>) {
    exists i :: 0 <= i < |tags| && NameJaKey !in tags[i]
  }

  /** Every tag of the list has `name_ja`. */
  predicate AllAnnotated(tags: seq<Tag>) {
    forall i :: 0 <= i < |tags| ==> NameJaKey in tags[i]
  }

  /** A tag with no `name` is annotated with the empty string. */
  lemma MissingNameGivesEmpty(tag: Tag)
    requires NameKey !in tag && NameJaKey !in tag
    ensures AnnotateTag(TagTranslations.Table, tag) == Success(tag[NameJaKey := JString("")])
  {
    ScriptTableMatchesFrontend("");
    TagTranslations.EmptyTagHasNoEntry();
  }

  /** A VNDB-style tag with a known name gains the Japanese name and keeps its rating. */
  lemma AnnotateExample(rating: real)
    ensures var tag := map[NameKey := JString("Horror"), "rating" := JNumber(rating)];
      AnnotateTag(TagTranslations.Table, tag) == Success(tag[NameJaKey := JString("ホラー")])
  {
    ScriptTableMatchesFrontend("Horror");
    TagTranslations.HorrorExample();
  }

  /** The inner loop over a tag list, as a whole: same tags, same order, each annotated. */
  function AnnotateTags(translations: Dictionary, tags: seq<Tag>): (r: Result<seq<Tag>, Raised>)
    ensures r.Success? <==> forall i :: 0 <= i < |tags| ==> AnnotateTag(translations, tags[i]).Success?
    ensures r.Success? ==> |r.value| == |tags|
    ensures r.Success? ==> forall i :: 0 <= i < |tags| ==> AnnotateTag(translations, tags[i]) == Success(r.value[i])
    ensures r.Success? ==> AllAnnotated(r.value)
  {
    if forall i :: 0 <= i < |tags| ==> AnnotateTag(translations, tags[i]).Success? then
      Success(seq(|tags|, i requires 0 <= i < |tags| => AnnotateTag(translations, tags[i]).value))
    else
      Failure(UnhashableName)
  }

  /** A list whose tags all have `name_ja` comes out of the inner loop unchanged. */
  lemma AnnotatedTagsAreFixed(translations: Dictionary, tags: seq<Tag>)
    requires AllAnnotated(tags)
    ensures AnnotateTags(translations, tags) == Success(tags)
  {
    assert forall i :: 0 <= i < |tags| ==> AnnotateTag(translations, tags[i]) == Success(tags[i]);
    var r := AnnotateTags(translations, tags);
    assert |r.value| == |tags|;
    assert forall i :: 0 <= i < |tags| ==> r.value[i] == tags[i];
    assert r.value == tags;
  }

  /** What the pass leaves behind: every fetched row after the loop, and the rows written back. */
  datatype Report = Report(after: seq<Row>, writes: seq<Row>)

  /** The report after one more row: its new state is kept, and it is written when a tag lacked `name_ja`. */
  function Extend(rep: Report, row: Row, row': Row): Report {
    Report(rep.after + [row'], rep.writes + if NeedsUpdate(row.tags) then [row'] else [])
  }

  /** The number of rows with a tag lacking `name_ja`. */
  function CountNeedingUpdate(rows: seq<Row>): (n: nat)
    ensures n <= |rows|
  {
    if |rows| == 0 then 0
    else CountNeedingUpdate(rows[..|rows| - 1]) + (if NeedsUpdate(rows[|rows| - 1].tags) then 1 else 0)
  }

  /** How a fetched row looks after the loop: same game, tag list annotated. */
  predicate Annotated(translations: Dictionary, row: Row, row': Row) {
    && row'.gameId == row.gameId
    && AnnotateTags(translations, row.tags) == Success(row'.tags)
  }

  /**
   One iteration of the outer loop: a row with an empty tag list is skipped
   and stays as it is; any other row has its tags annotated.
   */
  function RowStep(translations: Dictionary, row: Row): (r: Result<Row, Raised>)
    ensures r.Success? <==> AnnotateTags(translations, row.tags).Success?
    ensures r.Success? ==> Annotated(translations, row, r.value)
  {
    if |row.tags| == 0 then
      Success(row)
    else
      match AnnotateTags(translations, row.tags)
      case Failure(e) => Failure(e)
      case Success(tags) => Success(Row(row.gameId, tags))
  }

  /**
   The outer loop over the fetched rows, in order: each row goes through
   `RowStep`, and is written back when one of its tags lacked `name_ja`.
   An unhashable name aborts everything.
   */
  function Pass(translations: Dictionary, rows: seq<Row>): (r: Result<Report, Raised>)
    ensures r.Success? ==> |r.value.after| == |rows|
    ensures r.Success? ==> |r.value.writes| == CountNeedingUpdate(rows)
    decreases |rows|
  {
    if |rows| == 0 then
      Success(Report([], []))
    else
      var n := |rows| - 1;
      var row := rows[n];
      match Pass(translations, rows[..n])
      case Failure(e) => Failure(e)
      case Success(prev) =>
        match RowStep(translations, row)
        case Failure(e) => Failure(e)
        case Success(row') =>
          Success(Extend(prev, row, row'))
  }

  /** After a successful pass each fetched row stands, at its own position, with its tags annotated. */
  lemma {:induction false} PassAnnotatesEveryRow(translations: Dictionary, rows: seq<Row>)
    requires Pass(translations, rows).Success?
    ensures forall i :: 0 <= i < |rows| ==> Annotated(translations, rows[i], Pass(translations, rows).value.after[i])
    decreases |rows|
  {
    if |rows| > 0 {
      var n := |rows| - 1;
      PassStep(translations, rows);
      PassAnnotatesEveryRow(translations, rows[..n]);
      assert forall i :: 0 <= i < n ==> rows[..n][i] == rows[i];
    }
  }

  /** The pass aborts exactly when the tags of some fetched row cannot be annotated. */
  lemma {:induction false} PassFailsExactlyWhenTagsFail(translations: Dictionary, rows: seq<Row>)
    ensures Pass(translations, rows).Failure? <==> exists i :: 0 <= i < |rows| && AnnotateTags(translations, rows[i].tags).Failure?
    decreases |rows|
  {
    if |rows| > 0 {
      var n := |rows| - 1;
      PassFailsExactlyWhenTagsFail(translations, rows[..n]);
      assert forall i :: 0 <= i < n ==> rows[..n][i] == rows[i];
    }
  }

  /** One step of `Pass`: the last row extends the report of the rows before it. */
  lemma PassStep(translations: Dictionary, rows: seq<Row>)
    requires |rows| > 0 && Pass(translations, rows).Success?
    ensures var n := |rows| - 1;
      && Pass(translations, rows[..n]).Success?
      && Pass(translations, rows).value.after == Pass(translations, rows[..n]).value.after + [Pass(translations, rows).value.after[n]]
      && Pass(translations, rows).value.writes ==
           Pass(translations, rows[..n]).value.writes + if NeedsUpdate(rows[n].tags) then [Pass(translations, rows).value.after[n]] else []
  {
  }

  /** `Pass` over the rows so far, followed by one more row. */
  lemma PassSnoc(translations: Dictionary, prefix: seq<Row>, row: Row)
    requires Pass(translations, prefix).Success?
    ensures RowStep(translations, row).Failure? ==> Pass(translations, prefix + [row]).Failure?
    ensures RowStep(translations, row).Success? ==>
      Pass(translations, prefix + [row]) == Success(Extend(Pass(translations, prefix).value, row, RowStep(translations, row).value))
  {
    assert (prefix + [row])[..|prefix|] == prefix;
  }

  /** A row with no tags is skipped: it is neither changed nor written. */
  lemma EmptyRowIsSkipped(translations: Dictionary, rows: seq<Row>, gameId: string)
    ensures var r := Pass(translations, rows + [Row(gameId, [])]);
      && (r.Success? <==> Pass(translations, rows).Success?)
      && (r.Success? ==> r.value == Report(Pass(translations, rows).value.after + [Row(gameId, [])], Pass(translations, rows).value.writes))
  {
    assert (rows + [Row(gameId, [])])[..|rows|] == rows;
  }

  /** A game one of whose tags lacked `name_ja` is written back, with its annotated tag list. */
  lemma {:induction false} WrittenWhenLacking(translations: Dictionary, rows: seq<Row>)
    requires Pass(translations, rows).Success?
    ensures var rep := Pass(translations, rows).value;
      forall i :: 0 <= i < |rows| && NeedsUpdate(rows[i].tags) ==> rep.after[i] in rep.writes
    decreases |rows|
  {
    if |rows| > 0 {
      var n := |rows| - 1;
      var rep := Pass(translations, rows).value;
      PassStep(translations, rows);
      var prev := Pass(translations, rows[..n]).value;
      WrittenWhenLacking(translations, rows[..n]);
      forall i | 0 <= i < |rows| && NeedsUpdate(rows[i].tags)
        ensures rep.after[i] in rep.writes
      {
        if i < n {
          assert rows[..n][i] == rows[i];
          assert rep.after[i] == prev.after[i];
        } else {
          assert rep.writes[|rep.writes| - 1] == rep.after[n];
        }
      }
    }
  }

  /** Every game written back is one that had a tag lacking `name_ja`, as it stands after the loop. */
  lemma {:induction false} WrittenOnlyWhenLacking(translations: Dictionary, rows: seq<Row>)
    requires Pass(translations, rows).Success?
    ensures var rep := Pass(translations, rows).value;
      forall w :: w in rep.writes ==> exists i :: 0 <= i < |rows| && NeedsUpdate(rows[i].tags) && w == rep.after[i]
    decreases |rows|
  {
    if |rows| > 0 {
      var n := |rows| - 1;
      var rep := Pass(translations, rows).value;
      PassStep(translations, rows);
      var prev := Pass(translations, rows[..n]).value;
      WrittenOnlyWhenLacking(translations, rows[..n]);
      forall w | w in rep.writes
        ensures exists i :: 0 <= i < |rows| && NeedsUpdate(rows[i].tags) && w == rep.after[i]
      {
        if w in prev.writes {
          var j :| 0 <= j < n && NeedsUpdate(rows[..n][j].tags) && w == prev.after[j];
          assert rows[..n][j] == rows[j];
          assert rep.after[j] == prev.after[j];
        } else {
          assert NeedsUpdate(rows[n].tags) && w == rep.after[n];
        }
      }
    }
  }

  /** After a successful pass every tag of every row has `name_ja`. */
  lemma PassCompletes(translations: Dictionary, rows: seq<Row>)
    requires Pass(translations, rows).Success?
    ensures forall i :: 0 <= i < |rows| ==> AllAnnotated(Pass(translations, rows).value.after[i].tags)
  {
    PassAnnotatesEveryRow(translations, rows);
  }

  /** Idempotence: a second pass over the rows the first one left behind writes nothing. */
  lemma {:induction false} SecondPassWritesNothing(translations: Dictionary, rows: seq<Row>)
    requires Pass(translations, rows).Success?
    ensures Pass(translations, Pass(translations, rows).value.after) == Success(Report(Pass(translations, rows).value.after, []))
    decreases |rows|
  {
    if |rows| > 0 {
      var n := |rows| - 1;
      var after := Pass(translations, rows).value.after;
      PassStep(translations, rows);
      SecondPassWritesNothing(translations, rows[..n]);
      assert after[..n] == Pass(translations, rows[..n]).value.after;
      var last := after[n];
      AnnotatedTagsAreFixed(translations, last.tags);
      assert !NeedsUpdate(last.tags);
      assert after == after[..n] + [last];
    }
  }

  /** What the script leaves behind: a commit with the written rows and the counter, or a rollback. */
  datatype Outcome =
    | Committed(after: seq<Row>, writes: seq<Row>, updatedCount: nat)
    | RolledBack(error: Raised)

  /** The inner `for tag in tags` loop with its `updated` flag. */
  method AnnotateRowTags(translations: Dictionary, tags: seq<Tag>) returns (result: Result<seq<Tag>, Raised>, updated: bool)
    ensures result == AnnotateTags(translations, tags)
    ensures result.Success? ==> (updated <==> NeedsUpdate(tags))
  {
    var out: seq<Tag> := [];
    updated := false;
    for i := 0 to |tags|
      invariant |out| == i
      invariant forall j :: 0 <= j < i ==> AnnotateTag(translations, tags[j]) == Success(out[j])
      invariant updated <==> NeedsUpdate(tags[..i])
    {
      var tag := tags[i];
      assert tags[..i + 1] == tags[..i] + [tag];
      if NameJaKey !in tag {
        var ja := Translate(translations, NameOf(tag));
        if ja.Failure? {
          assert AnnotateTag(translations, tags[i]).Failure?;
          assert AnnotateTags(translations, tags) == Failure(UnhashableName);
          result := Failure(UnhashableName);
          return;
        }
        tag := tag[NameJaKey := ja.value];
        updated := true;
      }
      out := out + [tag];
    }
    assert tags[..|tags|] == tags;
    var spec := AnnotateTags(translations, tags);
    assert forall j :: 0 <= j < |tags| ==> spec.value[j] == out[j];
    assert spec.value == out;
    result := Success(out);
  }

  /** One pass of the outer loop's body: skip a row without tags, annotate any other. */
  method ProcessRow(translations: Dictionary, row: Row) returns (result: Result<Row, Raised>, updated: bool)
    ensures result == RowStep(translations, row)
    ensures result.Success? ==> (updated <==> NeedsUpdate(row.tags))
  {
    if |row.tags| == 0 {
      return Success(row), false;
    }
    var tags;
    tags, updated := AnnotateRowTags(translations, row.tags);
    if tags.Failure? {
      return Failure(tags.error), updated;
    }
    result := Success(Row(row.gameId, tags.value));
  }

  /**
   The outer loop of the script with its `updated_count`: the outcome is the
   one `Pass` describes, and the counter is the number of rows written.
   */
  method UpdateTagTranslations(translations: Dictionary, rows: seq<Row>) returns (outcome: Outcome)
    ensures outcome.RolledBack? <==> Pass(translations, rows).Failure?
    ensures outcome.Committed? ==> Pass(translations, rows) == Success(Report(outcome.after, outcome.writes))
    ensures outcome.Committed? ==> outcome.updatedCount == |outcome.writes| <= |rows|
  {
    var after: seq<Row> := [];
    var writes: seq<Row> := [];
    var updatedCount := 0;
    for i := 0 to |rows|
      invariant Pass(translations, rows[..i]) == Success(Report(after, writes))
      invariant updatedCount == |writes|
    {
      var row := rows[i];
      var step, updated := ProcessRow(translations, row);
      if step.Failure? {
        assert 0 <= i < |rows| && AnnotateTags(translations, rows[i].tags).Failure?;
        PassFailsExactlyWhenTagsFail(translations, rows);
        return RolledBack(step.error);
      }
      assert rows[..i + 1] == rows[..i] + [row];
      PassSnoc(translations, rows[..i], row);
      ghost var prev := Report(after, writes);
      after := after + [step.value];
      if updated {
        writes := writes + [step.value];
        updatedCount := updatedCount + 1;
      } else {
        assert writes + [] == writes;
      }
      assert Report(after, writes) == Extend(prev, row, step.value);
    }
    assert rows[..|rows|] == rows;
    outcome := Committed(after, writes, updatedCount);
  }
}
