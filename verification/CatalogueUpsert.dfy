/**
 The additive upsert of the model catalogue into the site's model table (`_merge_modalities`,
 `upsert_models`).
 */
module CatalogueUpsert {
  import opened Options
  import opened ModelCsv

  /** A catalogue entry; 0 and false stand for an absent limit and flag. */
  datatype Model = Model(name: string, provider: string, modalities: Option<string>, contextWindow: nat, maxOutput: nat,
                         reasoning: bool, alias: bool)

  /** What the upsert looks at of a stored row. */
  datatype Row = Row(modalities: Option<string>, contextWindow: int, maxOutput: int, reasoning: bool, alias: bool)

  /** The table and the writes made so far. */
  datatype Table = Table(rows: map<string, Row>, writes: nat)

  function AddMissing(have: seq<string>, wanted: seq<string>): seq<string>
    decreases |wanted|
  {
    if wanted == [] then have
    else AddMissing(if wanted[0] in have then have else have + [wanted[0]], wanted[1..])
  }

  function Merged(current: Option<string>, wanted: Option<string>): Option<string> {
    Encode(AddMissing(Parts(current), Parts(wanted)))
  }

  function OrNone(csv: Option<string>): Option<string> {
    if csv == Some("") then None else csv
  }

  function Refresh(row: Row, m: Model): Row {
    var merged := Merged(row.modalities, m.modalities);
    Row(if merged == OrNone(row.modalities) then row.modalities else merged,
        if row.contextWindow == 0 then m.contextWindow else row.contextWindow,
        if row.maxOutput == 0 then m.maxOutput else row.maxOutput,
        row.reasoning || m.reasoning,
        m.alias)
  }

  function Upsert(t: Table, m: Model): Table {
    if m.name !in t.rows then
      Table(t.rows[m.name := Row(m.modalities, m.contextWindow, m.maxOutput, m.reasoning, m.alias)], t.writes + 1)
    else if Refresh(t.rows[m.name], m) == t.rows[m.name] then t
    else Table(t.rows[m.name := Refresh(t.rows[m.name], m)], t.writes + 1)
  }

  function UpsertAll(t: Table, models: seq<Model>): Table {
    if models == [] then t else Upsert(UpsertAll(t, models[..|models| - 1]), models[|models| - 1])
  }

  method MergeModalities(current: Option<string>, wanted: Option<string>) returns (merged: Option<string>)
    ensures merged == Merged(current, wanted)
  {
    var have, todo := Parts(current), Parts(wanted);
    for k := 0 to |todo|
      invariant AddMissing(Parts(current), todo) == AddMissing(have, todo[k..])
    {
      assert todo[k..][0] == todo[k] && todo[k..][1..] == todo[k + 1..];
      if todo[k] !in have {
        have := have + [todo[k]];
      }
    }
    merged := Encode(have);
  }

  class ModelTable {
    var rows: map<string, Row>
    ghost var writes: nat

    ghost function Contents(): Table
      reads this
    {
      Table(rows, writes)
    }

    method UpsertModels(models: seq<Model>) returns (inserted: nat, updated: nat)
      modifies this
      ensures Contents() == UpsertAll(old(Contents()), models)
      ensures inserted + updated == writes - old(writes)
    {
      inserted, updated := 0, 0;
      for k := 0 to |models|
        invariant Contents() == UpsertAll(old(Contents()), models[..k])
        invariant inserted + updated == writes - old(writes)
      {
        assert models[..k + 1][..k] == models[..k];
        var m := models[k];
        if m.name !in rows {
          rows := rows[m.name := Row(m.modalities, m.contextWindow, m.maxOutput, m.reasoning, m.alias)];
          writes := writes + 1;
          inserted := inserted + 1;
        } else {
          var changed := UpdateRow(m);
          if changed {
            updated := updated + 1;
          }
        }
      }
      assert models[..|models|] == models;
    }

    method UpdateRow(m: Model) returns (changed: bool)
      requires m.name in rows
      modifies this
      ensures Contents() == Upsert(old(Contents()), m)
      ensures writes == old(writes) + if changed then 1 else 0
    {
      var row := rows[m.name];
      var after := row;
      var merged := MergeModalities(row.modalities, m.modalities);
      if merged != OrNone(row.modalities) {
        after := after.(modalities := merged);
      }
      if m.contextWindow != 0 && row.contextWindow == 0 {
        after := after.(contextWindow := m.contextWindow);
      }
      if m.maxOutput != 0 && row.maxOutput == 0 {
        after := after.(maxOutput := m.maxOutput);
      }
      if m.reasoning && !row.reasoning {
        after := after.(reasoning := true);
      }
      if row.alias != m.alias {
        after := after.(alias := m.alias);
      }
      changed := after != row;
      if changed {
        rows, writes := rows[m.name := after], writes + 1;
      }
    }
  }

  // ---- the merge ---------------------------------------------------------------------------------------

  /** The merge keeps what it had, in front and in order, and then has everything wanted. */
  lemma {:induction false} AddMissingAdds(have: seq<string>, wanted: seq<string>)
    ensures have <= AddMissing(have, wanted)
    ensures forall w | w in wanted :: w in AddMissing(have, wanted)
    ensures forall w | w in AddMissing(have, wanted) :: w in have || w in wanted
    decreases |wanted|
  {
    if wanted != [] {
      var next := if wanted[0] in have then have else have + [wanted[0]];
      AddMissingAdds(next, wanted[1..]);
      assert wanted == [wanted[0]] + wanted[1..];
      assert wanted[0] in next;
    }
  }

  lemma {:induction false} NothingMissing(have: seq<string>, wanted: seq<string>)
    requires forall w | w in wanted :: w in have
    ensures AddMissing(have, wanted) == have
  {
    if wanted != [] {
      assert wanted[0] in wanted;
      NothingMissing(have, wanted[1..]);
    }
  }

  lemma {:induction false} MergeAreParts(have: seq<string>, wanted: seq<string>)
    requires AreParts(have) && AreParts(wanted)
    ensures AreParts(AddMissing(have, wanted))
    decreases |wanted|
  {
    if wanted != [] {
      assert IsPart(wanted[0]);
      MergeAreParts(if wanted[0] in have then have else have + [wanted[0]], wanted[1..]);
    }
  }

  lemma MergedParts(current: Option<string>, wanted: Option<string>)
    ensures Parts(Merged(current, wanted)) == AddMissing(Parts(current), Parts(wanted))
    ensures Clean(Merged(current, wanted))
  {
    PartsAreParts(current);
    PartsAreParts(wanted);
    MergeAreParts(Parts(current), Parts(wanted));
    PartsOfEncode(AddMissing(Parts(current), Parts(wanted)));
  }

  // ---- idempotence -------------------------------------------------------------------------------------

  /** The entry has nothing left to change. */
  predicate Settled(t: Table, m: Model) {
    m.name in t.rows && Refresh(t.rows[m.name], m) == t.rows[m.name]
  }

  lemma RefreshSettles(row: Row, m: Model)
    ensures Refresh(Refresh(row, m), m) == Refresh(row, m)
  {
    var merged := Merged(row.modalities, m.modalities);
    if merged != OrNone(row.modalities) {
      MergedParts(row.modalities, m.modalities);
      AddMissingAdds(Parts(row.modalities), Parts(m.modalities));
      NothingMissing(Parts(merged), Parts(m.modalities));
    }
  }

  /** A list that the merge with itself does not rewrite. */
  predicate Settling(csv: Option<string>) {
    Merged(csv, csv) == OrNone(csv)
  }

  /** These are the lists that writing their entries back gives again, and the empty text. */
  lemma SettlingIff(csv: Option<string>)
    ensures Settling(csv) <==> Clean(csv) || csv == Some("")
  {
    NothingMissing(Parts(csv), Parts(csv));
    if csv == Some("") {
      assert Split("") == [""] && NonEmpty([""]) == [];
    }
  }

  /** A trailing comma is enough: such a list is rewritten without it. */
  lemma TrailingCommaExample()
    ensures !Settling(Some("Text,")) && Merged(Some("Text,"), Some("Text,")) == Some("Text")
  {
    SplitAfterPart("Text", "");
    assert "Text" + "," + "" == "Text,";
    assert Parts(Some("Text,")) == ["Text"] by {
      assert NonEmpty(["Text", ""]) == ["Text"] + NonEmpty([""]);
    }
    NothingMissing(["Text"], ["Text"]);
  }

  function InsertedRow(m: Model): Row {
    Row(m.modalities, m.contextWindow, m.maxOutput, m.reasoning, m.alias)
  }

  lemma InsertSettlesIff(m: Model)
    ensures Refresh(InsertedRow(m), m) == InsertedRow(m) <==> Settling(m.modalities)
  {
  }

  lemma UpsertSettles(t: Table, m: Model)
    requires Settling(m.modalities)
    ensures Settled(Upsert(t, m), m)
  {
    InsertSettlesIff(m);
    if m.name in t.rows {
      RefreshSettles(t.rows[m.name], m);
    }
  }

  predicate DistinctNames(models: seq<Model>) {
    forall j, k | 0 <= j < k < |models| :: models[j].name != models[k].name
  }

  predicate AllSettling(models: seq<Model>) {
    forall k | 0 <= k < |models| :: Settling(models[k].modalities)
  }

  lemma {:induction false} AllSettled(t: Table, models: seq<Model>, k: nat)
    requires DistinctNames(models) && AllSettling(models) && k < |models|
    ensures Settled(UpsertAll(t, models), models[k])
  {
    var front, last := models[..|models| - 1], models[|models| - 1];
    if k < |front| {
      AllSettled(t, front, k);
      assert last.name != models[k].name;
    } else {
      UpsertSettles(UpsertAll(t, front), last);
    }
  }

  lemma {:induction false} SettledIsLeftAlone(t: Table, models: seq<Model>)
    requires forall k | 0 <= k < |models| :: Settled(t, models[k])
    ensures UpsertAll(t, models) == t
  {
    if models != [] {
      var front := models[..|models| - 1];
      assert forall k | 0 <= k < |front| :: front[k] == models[k];
      SettledIsLeftAlone(t, front);
      assert Settled(t, models[|models| - 1]);
    }
  }

  /** For distinct names and settling lists, the second upsert of a catalogue writes nothing, whatever the table was. */
  lemma UpsertIsIdempotent(t: Table, models: seq<Model>)
    requires DistinctNames(models) && AllSettling(models)
    ensures UpsertAll(UpsertAll(t, models), models) == UpsertAll(t, models)
  {
    forall k | 0 <= k < |models|
      ensures Settled(UpsertAll(t, models), models[k])
    {
      AllSettled(t, models, k);
    }
    SettledIsLeftAlone(UpsertAll(t, models), models);
  }

  const NO_ROWS := Table(map[], 0)

  /** An entry whose list does not settle is inserted as it is, and rewritten by the next upsert. */
  lemma UnsettlingIsRewritten(models: seq<Model>, k: nat)
    requires DistinctNames(models) && k < |models| && !Settling(models[k].modalities)
    ensures UpsertAll(UpsertAll(NO_ROWS, models), models) != UpsertAll(NO_ROWS, models)
  {
    var m, once := models[k], UpsertAll(NO_ROWS, models);
    OwnEntryOnly(NO_ROWS, models, k);
    assert once.rows[m.name] == InsertedRow(m);
    InsertSettlesIff(m);
    OwnEntryOnly(once, models, k);
    assert UpsertAll(once, models).rows[m.name] == Refresh(InsertedRow(m), m);
  }

  predicate UpsertsOnce(t: Table, models: seq<Model>) {
    UpsertAll(UpsertAll(t, models), models) == UpsertAll(t, models)
  }

  /** The exact condition: a catalogue with distinct names changes nothing the second time, for every earlier table, if
      and only if each of its lists settles. */
  lemma UpsertIsIdempotentIff(models: seq<Model>)
    requires DistinctNames(models)
    ensures (forall t :: UpsertsOnce(t, models)) <==> AllSettling(models)
  {
    if AllSettling(models) {
      forall t
        ensures UpsertsOnce(t, models)
      {
        UpsertIsIdempotent(t, models);
      }
    } else {
      var k :| 0 <= k < |models| && !Settling(models[k].modalities);
      UnsettlingIsRewritten(models, k);
      assert !UpsertsOnce(NO_ROWS, models);
    }
  }

  /** Two entries of one name that disagree on the alias flag are never settled: every later upsert writes twice. */
  lemma DuplicateNeverSettles(t: Table, m: Model)
    requires m.name in t.rows && !t.rows[m.name].alias
    requires Refresh(t.rows[m.name], m.(alias := false)) == t.rows[m.name]
    ensures var models := [m.(alias := true), m.(alias := false)];
            UpsertAll(t, models).rows == t.rows && UpsertAll(t, models).writes == t.writes + 2
  {
    var on, off := m.(alias := true), m.(alias := false);
    assert [on, off][..1] == [on] && [on][..0] == [];
    var first := Upsert(t, on);
    assert first.rows[m.name] == t.rows[m.name].(alias := true);
    assert UpsertAll(t, [on]) == first;
    assert Upsert(first, off).rows == t.rows;
  }

  // ---- additive ----------------------------------------------------------------------------------------

  /** The later row has every modality and every filled field of the earlier one. */
  predicate Grown(before: Row, after: Row) {
    && Parts(before.modalities) <= Parts(after.modalities)
    && (before.contextWindow != 0 ==> after.contextWindow == before.contextWindow)
    && (before.maxOutput != 0 ==> after.maxOutput == before.maxOutput)
    && (before.reasoning ==> after.reasoning)
  }

  lemma RefreshGrows(row: Row, m: Model)
    ensures Grown(row, Refresh(row, m))
    ensures forall w | w in Parts(m.modalities) :: w in Parts(Refresh(row, m).modalities)
  {
    MergedParts(row.modalities, m.modalities);
    AddMissingAdds(Parts(row.modalities), Parts(m.modalities));
  }

  predicate InCatalogue(models: seq<Model>, name: string) {
    exists k | 0 <= k < |models| :: models[k].name == name
  }

  /** For every earlier table and any catalogue: no row is deleted, a row of the catalogue only grows, and a row outside
      it is not touched. */
  lemma {:induction false} UpsertIsAdditive(t: Table, models: seq<Model>, name: string)
    requires name in t.rows
    ensures var after := UpsertAll(t, models).rows;
            && name in after && Grown(t.rows[name], after[name])
            && (!InCatalogue(models, name) ==> after[name] == t.rows[name])
  {
    if models != [] {
      var front, last := models[..|models| - 1], models[|models| - 1];
      UpsertIsAdditive(t, front, name);
      assert InCatalogue(front, name) ==> InCatalogue(models, name) by {
        assert forall k | 0 <= k < |front| :: front[k] == models[k];
      }
      if last.name == name {
        RefreshGrows(UpsertAll(t, front).rows[name], last);
      }
    }
  }

  /** Every change of the table is a write, and a write without one happens only when a later entry undoes it. */
  lemma {:induction false} ChangesAreWrites(t: Table, models: seq<Model>)
    ensures UpsertAll(t, models).writes >= t.writes
    ensures UpsertAll(t, models).writes == t.writes ==> UpsertAll(t, models) == t
  {
    if models != [] {
      ChangesAreWrites(t, models[..|models| - 1]);
    }
  }

  /** A row of a catalogue with distinct names is written for its own entry only. */
  lemma {:induction false} OwnEntryOnly(t: Table, models: seq<Model>, k: nat)
    requires DistinctNames(models) && k < |models|
    ensures models[k].name in UpsertAll(t, models).rows
    ensures UpsertAll(t, models).rows[models[k].name] == Upsert(t, models[k]).rows[models[k].name]
  {
    var front, last := models[..|models| - 1], models[|models| - 1];
    if k < |front| {
      OwnEntryOnly(t, front, k);
      assert last.name != models[k].name;
    } else {
      Unmentioned(t, front, last.name);
    }
  }

  lemma {:induction false} Unmentioned(t: Table, models: seq<Model>, name: string)
    requires forall k | 0 <= k < |models| :: models[k].name != name
    ensures name in UpsertAll(t, models).rows <==> name in t.rows
    ensures name in t.rows ==> UpsertAll(t, models).rows[name] == t.rows[name]
  {
    if models != [] {
      Unmentioned(t, models[..|models| - 1], name);
    }
  }

  function FilledWith(before: int, wanted: int): int {
    if before != 0 then before else wanted
  }

  /** After an upsert with distinct names, each catalogue row has the catalogue's alias flag, its blanks filled from the
      catalogue, and exactly the modalities it had or the catalogue wants. */
  lemma CatalogueIsInTable(t: Table, models: seq<Model>, k: nat)
    requires DistinctNames(models) && k < |models|
    ensures var m := models[k]; var before := if m.name in t.rows then t.rows[m.name]
            else Row(None, 0, 0, false, false);
            m.name in UpsertAll(t, models).rows && var after := UpsertAll(t, models).rows[m.name];
            && after.alias == m.alias && (after.reasoning <==> before.reasoning || m.reasoning)
            && after.contextWindow == FilledWith(before.contextWindow, m.contextWindow)
            && after.maxOutput == FilledWith(before.maxOutput, m.maxOutput)
            && forall w :: w in Parts(after.modalities) <==> w in Parts(before.modalities) || w in Parts(m.modalities)
  {
    var m := models[k];
    OwnEntryOnly(t, models, k);
    if m.name in t.rows {
      MergedParts(t.rows[m.name].modalities, m.modalities);
      AddMissingAdds(Parts(t.rows[m.name].modalities), Parts(m.modalities));
    }
  }

  lemma {:induction false} NoOtherRows(t: Table, models: seq<Model>, name: string)
    requires name in UpsertAll(t, models).rows
    ensures name in t.rows || InCatalogue(models, name)
  {
    if models != [] {
      var front, last := models[..|models| - 1], models[|models| - 1];
      if name in UpsertAll(t, front).rows {
        NoOtherRows(t, front, name);
        assert forall k | 0 <= k < |front| :: front[k] == models[k];
      } else {
        assert models[|models| - 1].name == name;
      }
    }
  }
}
