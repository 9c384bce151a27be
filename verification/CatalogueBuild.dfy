/**
 The build of the model catalogue from candidate keys, the provider's model table and the hand-kept
 lists (`build`).  Dictionaries keep their insertion order, as in the source; sets and dictionaries
 that are only iterated over come as sequences.
 */
module CatalogueBuild {
  import opened Options
  import opened ModelCsv
  import opened CatalogueUpsert

  datatype Mode = Chat | ImageGeneration | AudioTranscription | AudioSpeech | Embedding | Other

  /** An entry of the model table; limits are integers, 0 when absent. */
  datatype Entry = Entry(mode: Mode, vision: bool, maxInput: int, maxTokens: int, maxOutput: int, reasoning: bool,
                         deprecated: Option<int>)

  datatype Candidate = Candidate(provider: string, key: string)

  datatype Retired = Retired(former: string, provider: string, replacement: string)

  datatype Config = Config(strip: map<string, string>, add: map<string, string>, candidates: seq<Candidate>,
                           extras: seq<Model>, overrides: seq<(string, string)>, aliases: seq<string>,
                           retired: seq<Retired>)

  datatype Error =
    | DuplicateExtra(name: string)
    | AliasNotSeeded(name: string)
    | StillSeeded(name: string)
    | TargetNotSeeded(name: string)
    | CrossesProviders(name: string)

  datatype Result<T> = Ok(value: T) | Err(error: Error)

  /** The dictionary of models by name, with its insertion order. */
  datatype Draft = Draft(models: map<string, Model>, order: seq<string>)

  // ---- one candidate -----------------------------------------------------------------------------------

  function ModalitiesFor(e: Entry): seq<string> {
    match e.mode
    case Chat => ["Text"] + if e.vision then ["Vision"] else []
    case ImageGeneration => ["Image"]
    case AudioTranscription => ["Transcription"]
    case AudioSpeech => ["Text-to-Speech"]
    case Embedding => ["Embeddings"]
    case Other => []
  }

  function Positive(n: int): nat {
    if n > 0 then n else 0
  }

  function At(prefixes: map<string, string>, provider: string): string {
    if provider in prefixes then prefixes[provider] else ""
  }

  function StoredName(cfg: Config, c: Candidate): string {
    var prefix := At(cfg.strip, c.provider);
    At(cfg.add, c.provider) + if prefix <= c.key then c.key[|prefix|..] else c.key
  }

  /** Whether the candidate is in the model table and not past its deprecation date. */
  predicate Usable(cost: map<string, Entry>, asOf: int, c: Candidate) {
    c.key in cost && !(cost[c.key].deprecated.Some? && cost[c.key].deprecated.value < asOf)
  }

  function Record(cfg: Config, e: Entry, c: Candidate): Model {
    Model(StoredName(cfg, c), c.provider, Encode(ModalitiesFor(e)),
          Positive(if e.maxInput != 0 then e.maxInput else e.maxTokens), Positive(e.maxOutput), e.reasoning, false)
  }

  // ---- the stages --------------------------------------------------------------------------------------

  function Put(d: Draft, m: Model): Draft {
    Draft(d.models[m.name := m], d.order + [m.name])
  }

  /** The first candidate of a stored name is kept. */
  function Candidates(cfg: Config, cost: map<string, Entry>, asOf: int, cs: seq<Candidate>): Draft {
    if cs == [] then Draft(map[], [])
    else
      var d, c := Candidates(cfg, cost, asOf, cs[..|cs| - 1]), cs[|cs| - 1];
      if !Usable(cost, asOf, c) || StoredName(cfg, c) in d.models then d else Put(d, Record(cfg, cost[c.key], c))
  }

  function AddExtras(d: Draft, extras: seq<Model>): Result<Draft>
    decreases |extras|
  {
    if extras == [] then Ok(d)
    else if extras[0].name in d.models then Err(DuplicateExtra(extras[0].name))
    else AddExtras(Put(d, extras[0]), extras[1..])
  }

  function Override(models: map<string, Model>, overrides: seq<(string, string)>): map<string, Model> {
    if overrides == [] then models
    else
      var ms, o := Override(models, overrides[..|overrides| - 1]), overrides[|overrides| - 1];
      if o.0 in ms then ms[o.0 := ms[o.0].(modalities := Some(o.1))] else ms
  }

  function MarkAliases(models: map<string, Model>, aliases: seq<string>): Result<map<string, Model>>
    decreases |aliases|
  {
    if aliases == [] then Ok(models)
    else if aliases[0] !in models then Err(AliasNotSeeded(aliases[0]))
    else MarkAliases(models[aliases[0] := models[aliases[0]].(alias := true)], aliases[1..])
  }

  function RetiredFault(models: map<string, Model>, r: Retired): Option<Error> {
    if r.former in models then Some(StillSeeded(r.former))
    else if r.replacement !in models then Some(TargetNotSeeded(r.former))
    else if models[r.replacement].provider != r.provider then Some(CrossesProviders(r.former))
    else None
  }

  function CheckRetired(models: map<string, Model>, retired: seq<Retired>): Option<Error> {
    if retired == [] then None
    else if RetiredFault(models, retired[0]).Some? then RetiredFault(models, retired[0])
    else CheckRetired(models, retired[1..])
  }

  function Build(cfg: Config, cost: map<string, Entry>, asOf: int): Result<Draft> {
    match AddExtras(Candidates(cfg, cost, asOf, cfg.candidates), cfg.extras)
    case Err(e) => Err(e)
    case Ok(d) =>
      match MarkAliases(Override(d.models, cfg.overrides), cfg.aliases)
      case Err(e) => Err(e)
      case Ok(models) =>
        match CheckRetired(models, cfg.retired)
        case Some(e) => Err(e)
        case None => Ok(Draft(models, d.order))
  }

  // ---- the code ----------------------------------------------------------------------------------------

  class Builder {
    var models: map<string, Model>
    var order: seq<string>

    function Contents(): Draft
      reads this
    {
      Draft(models, order)
    }

    constructor ()
      ensures Contents() == Draft(map[], [])
    {
      models, order := map[], [];
    }

    method BuildCatalogue(cfg: Config, cost: map<string, Entry>, asOf: int) returns (error: Option<Error>)
      requires Contents() == Draft(map[], [])
      modifies this
      ensures match Build(cfg, cost, asOf)
              case Ok(d) => error == None && Contents() == d
              case Err(e) => error == Some(e)
    {
      CollectCandidates(cfg, cost, asOf);
      error := CollectExtras(cfg.extras);
      if error.Some? {
        return;
      }
      ApplyOverrides(cfg.overrides);
      error := FlagAliases(cfg.aliases);
      if error.Some? {
        return;
      }
      for k := 0 to |cfg.retired|
        invariant CheckRetired(models, cfg.retired) == CheckRetired(models, cfg.retired[k..])
      {
        var r := cfg.retired[k];
        assert cfg.retired[k..][0] == r && cfg.retired[k..][1..] == cfg.retired[k + 1..];
        if r.former in models {
          return Some(StillSeeded(r.former));
        }
        if r.replacement !in models {
          return Some(TargetNotSeeded(r.former));
        }
        if models[r.replacement].provider != r.provider {
          return Some(CrossesProviders(r.former));
        }
      }
    }

    method CollectCandidates(cfg: Config, cost: map<string, Entry>, asOf: int)
      requires Contents() == Draft(map[], [])
      modifies this
      ensures Contents() == Candidates(cfg, cost, asOf, cfg.candidates)
    {
      for k := 0 to |cfg.candidates|
        invariant Contents() == Candidates(cfg, cost, asOf, cfg.candidates[..k])
      {
        assert cfg.candidates[..k + 1][..k] == cfg.candidates[..k];
        var c := cfg.candidates[k];
        if c.key in cost {
          var entry := cost[c.key];
          if !(entry.deprecated.Some? && entry.deprecated.value < asOf) {
            var record := Record(cfg, entry, c);
            if record.name !in models {
              models, order := models[record.name := record], order + [record.name];
            }
          }
        }
      }
      assert cfg.candidates[..|cfg.candidates|] == cfg.candidates;
    }

    method CollectExtras(extras: seq<Model>) returns (error: Option<Error>)
      modifies this
      ensures match AddExtras(old(Contents()), extras)
              case Ok(d) => error == None && Contents() == d
              case Err(e) => error == Some(e)
    {
      for k := 0 to |extras|
        invariant AddExtras(old(Contents()), extras) == AddExtras(Contents(), extras[k..])
      {
        var extra := extras[k];
        assert extras[k..][0] == extra && extras[k..][1..] == extras[k + 1..];
        if extra.name in models {
          return Some(DuplicateExtra(extra.name));
        }
        models, order := models[extra.name := extra], order + [extra.name];
      }
      error := None;
    }

    method ApplyOverrides(overrides: seq<(string, string)>)
      modifies `models
      ensures models == Override(old(models), overrides)
    {
      for k := 0 to |overrides|
        invariant models == Override(old(models), overrides[..k])
      {
        assert overrides[..k + 1][..k] == overrides[..k];
        var (name, mods) := overrides[k];
        if name in models {
          models := models[name := models[name].(modalities := Some(mods))];
        }
      }
      assert overrides[..|overrides|] == overrides;
    }

    method FlagAliases(aliases: seq<string>) returns (error: Option<Error>)
      modifies `models
      ensures match MarkAliases(old(models), aliases)
              case Ok(ms) => error == None && models == ms
              case Err(e) => error == Some(e)
    {
      for k := 0 to |aliases|
        invariant MarkAliases(old(models), aliases) == MarkAliases(models, aliases[k..])
      {
        var name := aliases[k];
        assert aliases[k..][0] == name && aliases[k..][1..] == aliases[k + 1..];
        if name !in models {
          return Some(AliasNotSeeded(name));
        }
        models := models[name := models[name].(alias := true)];
      }
      error := None;
    }
  }

  // ---- what every successful build has -----------------------------------------------------------------

  /** Each name is in the order once, and keys an entry of that name. */
  ghost predicate WellKept(models: map<string, Model>, order: seq<string>) {
    && (forall n | n in models :: models[n].name == n && n in order)
    && (forall k | 0 <= k < |order| :: order[k] in models)
    && (forall j, k | 0 <= j < k < |order| :: order[j] != order[k])
  }

  lemma {:induction false} CandidatesWellKept(cfg: Config, cost: map<string, Entry>, asOf: int, cs: seq<Candidate>)
    ensures var d := Candidates(cfg, cost, asOf, cs); WellKept(d.models, d.order)
  {
    if cs != [] {
      CandidatesWellKept(cfg, cost, asOf, cs[..|cs| - 1]);
    }
  }

  lemma {:induction false} ExtrasWellKept(d: Draft, extras: seq<Model>)
    requires WellKept(d.models, d.order) && AddExtras(d, extras).Ok?
    ensures var e := AddExtras(d, extras).value; WellKept(e.models, e.order)
    decreases |extras|
  {
    if extras != [] {
      ExtrasWellKept(Put(d, extras[0]), extras[1..]);
    }
  }

  /** An entry that differs at most in its modalities and its alias flag. */
  predicate SameButMarks(a: Model, b: Model) {
    a.(modalities := b.modalities, alias := b.alias) == b
  }

  lemma {:induction false} OverrideKeeps(models: map<string, Model>, overrides: seq<(string, string)>, n: string)
    ensures n in Override(models, overrides) <==> n in models
    ensures n in models ==> SameButMarks(models[n], Override(models, overrides)[n])
    ensures n in models ==> Override(models, overrides)[n].alias == models[n].alias
  {
    if overrides != [] {
      OverrideKeeps(models, overrides[..|overrides| - 1], n);
    }
  }

  lemma {:induction false} AliasesKeep(models: map<string, Model>, aliases: seq<string>, n: string)
    requires MarkAliases(models, aliases).Ok?
    ensures var ms := MarkAliases(models, aliases).value;
            && (n in ms <==> n in models)
            && (n in models ==> ms[n] == models[n].(alias := models[n].alias || n in aliases))
            && (forall k | 0 <= k < |aliases| :: aliases[k] in models)
    decreases |aliases|
  {
    if aliases != [] {
      AliasesKeep(models[aliases[0] := models[aliases[0]].(alias := true)], aliases[1..], n);
    }
  }

  lemma {:induction false} RetiredChecked(models: map<string, Model>, retired: seq<Retired>, k: nat)
    requires CheckRetired(models, retired) == None && k < |retired|
    ensures RetiredFault(models, retired[k]) == None
  {
    if k > 0 {
      RetiredChecked(models, retired[1..], k - 1);
    }
  }

  /** The catalogue as handed out, before the final sort. */
  function Listing(d: Draft): seq<Model>
    requires forall k | 0 <= k < |d.order| :: d.order[k] in d.models
  {
    seq(|d.order|, k requires 0 <= k < |d.order| => d.models[d.order[k]])
  }

  lemma BuildWellKept(cfg: Config, cost: map<string, Entry>, asOf: int)
    requires Build(cfg, cost, asOf).Ok?
    ensures var d := Build(cfg, cost, asOf).value; WellKept(d.models, d.order)
  {
    CandidatesWellKept(cfg, cost, asOf, cfg.candidates);
    var seeded := Candidates(cfg, cost, asOf, cfg.candidates);
    ExtrasWellKept(seeded, cfg.extras);
    var full := AddExtras(seeded, cfg.extras).value;
    var d := Build(cfg, cost, asOf).value;
    MarksStayWellKept(cfg, full, d.models);
  }

  lemma MarksStayWellKept(cfg: Config, full: Draft, models: map<string, Model>)
    requires WellKept(full.models, full.order)
    requires MarkAliases(Override(full.models, cfg.overrides), cfg.aliases) == Ok(models)
    ensures WellKept(models, full.order)
  {
    forall n
      ensures n in models <==> n in full.models
      ensures n in models ==> models[n].name == n
    {
      OverrideKeeps(full.models, cfg.overrides, n);
      AliasesKeep(Override(full.models, cfg.overrides), cfg.aliases, n);
    }
  }

  /** The names of a successful build are distinct. */
  lemma BuildIsDistinct(cfg: Config, cost: map<string, Entry>, asOf: int)
    requires Build(cfg, cost, asOf).Ok?
    ensures var d := Build(cfg, cost, asOf).value;
            WellKept(d.models, d.order) && DistinctNames(Listing(d))
  {
    BuildWellKept(cfg, cost, asOf);
  }

  // ---- retired names -----------------------------------------------------------------------------------

  /** Where the repointing sends a name; the last entry of the dictionary for it counts. */
  function Repoint(retired: seq<Retired>, name: string): string {
    if retired == [] then name
    else if retired[|retired| - 1].former == name then retired[|retired| - 1].replacement
    else Repoint(retired[..|retired| - 1], name)
  }

  lemma {:induction false} RepointFrom(retired: seq<Retired>, name: string)
    ensures (forall k | 0 <= k < |retired| :: retired[k].former != name) ==> Repoint(retired, name) == name
    ensures (exists k | 0 <= k < |retired| ::
               retired[k].former == name && retired[k].replacement == Repoint(retired, name))
            || Repoint(retired, name) == name
  {
    if retired != [] && retired[|retired| - 1].former != name {
      RepointFrom(retired[..|retired| - 1], name);
    }
  }

  /** Every retired name is gone, and its replacement is a seeded model of the stated provider that is not retired
      itself. */
  lemma RetiredIsReplaced(cfg: Config, cost: map<string, Entry>, asOf: int, j: nat)
    requires Build(cfg, cost, asOf).Ok? && j < |cfg.retired|
    ensures var models := Build(cfg, cost, asOf).value.models; var r := cfg.retired[j];
            && r.former !in models && r.replacement in models && models[r.replacement].provider == r.provider
            && forall k | 0 <= k < |cfg.retired| :: cfg.retired[k].former != r.replacement
  {
    var models := Build(cfg, cost, asOf).value.models;
    RetiredChecked(models, cfg.retired, j);
    forall k | 0 <= k < |cfg.retired|
      ensures cfg.retired[k].former !in models
    {
      RetiredChecked(models, cfg.retired, k);
    }
  }

  /** So repointing settles in one step. */
  lemma RepointSettles(cfg: Config, cost: map<string, Entry>, asOf: int, name: string)
    requires Build(cfg, cost, asOf).Ok?
    ensures var once := Repoint(cfg.retired, name);
            && Repoint(cfg.retired, once) == once
            && (once != name ==> once in Build(cfg, cost, asOf).value.models)
  {
    var once := Repoint(cfg.retired, name);
    RepointFrom(cfg.retired, name);
    if once != name {
      var j :| 0 <= j < |cfg.retired| && cfg.retired[j].former == name && cfg.retired[j].replacement == once;
      RetiredIsReplaced(cfg, cost, asOf, j);
      RepointFrom(cfg.retired, once);
    }
  }

  // ---- what is in the catalogue ------------------------------------------------------------------------

  predicate UsableAs(cfg: Config, cost: map<string, Entry>, asOf: int, c: Candidate, n: string) {
    Usable(cost, asOf, c) && StoredName(cfg, c) == n
  }

  /** The candidate at `k` is the first usable one stored as `n`. */
  predicate FirstAs(cfg: Config, cost: map<string, Entry>, asOf: int, cs: seq<Candidate>, n: string, k: nat) {
    k < |cs| && UsableAs(cfg, cost, asOf, cs[k], n) && forall j | 0 <= j < k :: !UsableAs(cfg, cost, asOf, cs[j], n)
  }

  predicate NoneAs(cfg: Config, cost: map<string, Entry>, asOf: int, cs: seq<Candidate>, n: string) {
    forall j | 0 <= j < |cs| :: !UsableAs(cfg, cost, asOf, cs[j], n)
  }

  /** A candidate is usable when the model table has it and does not deprecate it before the date. */
  lemma UsableIff(cost: map<string, Entry>, asOf: int, c: Candidate)
    ensures Usable(cost, asOf, c) <==>
              c.key in cost && (cost[c.key].deprecated == None || cost[c.key].deprecated.value >= asOf)
  {
  }

  /** It is stored under its key, without the prefix its provider strips and with the one it adds. */
  lemma StoredNameIs(cfg: Config, c: Candidate, added: string, rest: string)
    requires added == if c.provider in cfg.add then cfg.add[c.provider] else ""
    ensures c.provider in cfg.strip && c.key == cfg.strip[c.provider] + rest ==> StoredName(cfg, c) == added + rest
    ensures c.provider !in cfg.strip || !(cfg.strip[c.provider] <= c.key) ==> StoredName(cfg, c) == added + c.key
  {
  }

  /** The modality text of an entry by its mode. */
  lemma ModalityTexts(e: Entry)
    ensures e.mode == Chat ==> Encode(ModalitiesFor(e)) == Some(if e.vision then "Text,Vision" else "Text")
    ensures e.mode == ImageGeneration ==> Encode(ModalitiesFor(e)) == Some("Image")
    ensures e.mode == AudioTranscription ==> Encode(ModalitiesFor(e)) == Some("Transcription")
    ensures e.mode == AudioSpeech ==> Encode(ModalitiesFor(e)) == Some("Text-to-Speech")
    ensures e.mode == Embedding ==> Encode(ModalitiesFor(e)) == Some("Embeddings")
    ensures e.mode == Other ==> Encode(ModalitiesFor(e)) == None
  {
    if e.mode == Chat && e.vision {
      assert ModalitiesFor(e) == ["Text", "Vision"] && ModalitiesFor(e)[1..] == ["Vision"];
      assert Join(["Text", "Vision"][1..]) == "Vision" && "Text" + "," + "Vision" == "Text,Vision";
    }
  }

  lemma {:induction false} SeededIff(cfg: Config, cost: map<string, Entry>, asOf: int, cs: seq<Candidate>, n: string)
    ensures n !in Candidates(cfg, cost, asOf, cs).models <==> NoneAs(cfg, cost, asOf, cs, n)
  {
    if cs != [] {
      SeededIff(cfg, cost, asOf, cs[..|cs| - 1], n);
    }
  }

  /** A name is seeded from the first usable candidate stored under it. */
  lemma {:induction false} SeededFromFirst(cfg: Config, cost: map<string, Entry>, asOf: int, cs: seq<Candidate>,
    n: string, k: nat)
    requires FirstAs(cfg, cost, asOf, cs, n, k)
    ensures var ms := Candidates(cfg, cost, asOf, cs).models; n in ms && ms[n] == Record(cfg, cost[cs[k].key], cs[k])
  {
    var front := cs[..|cs| - 1];
    if k < |front| {
      assert FirstAs(cfg, cost, asOf, front, n, k);
      SeededFromFirst(cfg, cost, asOf, front, n, k);
    } else {
      assert NoneAs(cfg, cost, asOf, front, n);
      SeededIff(cfg, cost, asOf, front, n);
    }
  }

  lemma {:induction false} ExtrasAdd(d: Draft, extras: seq<Model>, n: string)
    requires AddExtras(d, extras).Ok?
    ensures var ms := AddExtras(d, extras).value.models;
            && (n in ms <==> n in d.models || InCatalogue(extras, n))
            && (n in d.models ==> !InCatalogue(extras, n) && ms[n] == d.models[n])
            && (n !in d.models ==> forall k | 0 <= k < |extras| && extras[k].name == n :: ms[n] == extras[k])
    decreases |extras|
  {
    if extras != [] {
      ExtrasAdd(Put(d, extras[0]), extras[1..], n);
      assert forall k | 0 < k < |extras| :: extras[k] == extras[1..][k - 1];
      assert InCatalogue(extras[1..], n) ==> InCatalogue(extras, n);
    }
  }

  /** The stages after the candidates: what an entry of the finished catalogue was before. */
  lemma AfterCandidates(cfg: Config, cost: map<string, Entry>, asOf: int, n: string)
    requires Build(cfg, cost, asOf).Ok?
    ensures var seeded := Candidates(cfg, cost, asOf, cfg.candidates);
            var models := Build(cfg, cost, asOf).value.models;
            && (n in models <==> n in seeded.models || InCatalogue(cfg.extras, n))
            && (n in seeded.models ==> SameButMarks(seeded.models[n], models[n])
                                       && (models[n].alias <==> seeded.models[n].alias || n in cfg.aliases))
            && (n in seeded.models ==> !InCatalogue(cfg.extras, n))
  {
    var seeded := Candidates(cfg, cost, asOf, cfg.candidates);
    var full := AddExtras(seeded, cfg.extras).value;
    ExtrasAdd(seeded, cfg.extras, n);
    OverrideKeeps(full.models, cfg.overrides, n);
    AliasesKeep(Override(full.models, cfg.overrides), cfg.aliases, n);
  }

  /** The catalogue holds exactly the extras and the names of usable candidates, and no name is both. */
  lemma BuildNames(cfg: Config, cost: map<string, Entry>, asOf: int, n: string)
    requires Build(cfg, cost, asOf).Ok?
    ensures n in Build(cfg, cost, asOf).value.models <==>
              InCatalogue(cfg.extras, n) || !NoneAs(cfg, cost, asOf, cfg.candidates, n)
    ensures InCatalogue(cfg.extras, n) ==> NoneAs(cfg, cost, asOf, cfg.candidates, n)
  {
    SeededIff(cfg, cost, asOf, cfg.candidates, n);
    AfterCandidates(cfg, cost, asOf, n);
  }

  /** Everything but the modalities of a candidate's model comes from the first usable candidate of its name: its
      provider, and from the entry the input limit (or the older total limit), the output limit and the reasoning flag,
      limits that are not positive counting as none.  It is flagged exactly when it is a listed alias. */
  lemma BuildFromCandidate(cfg: Config, cost: map<string, Entry>, asOf: int, n: string, k: nat)
    requires Build(cfg, cost, asOf).Ok? && FirstAs(cfg, cost, asOf, cfg.candidates, n, k)
    ensures var models := Build(cfg, cost, asOf).value.models; var c := cfg.candidates[k]; var e := cost[c.key];
            var window := if e.maxInput != 0 then e.maxInput else e.maxTokens;
            n in models && var m := models[n];
            && m.name == n && m.provider == c.provider && m.reasoning == e.reasoning
            && m.contextWindow == (if window > 0 then window else 0)
            && m.maxOutput == (if e.maxOutput > 0 then e.maxOutput else 0)
            && (m.alias <==> n in cfg.aliases)
  {
    SeededFromFirst(cfg, cost, asOf, cfg.candidates, n, k);
    AfterCandidates(cfg, cost, asOf, n);
  }

  /** An extra is taken over as it stands, but for its modalities and alias flag. */
  lemma BuildFromExtra(cfg: Config, cost: map<string, Entry>, asOf: int, k: nat)
    requires Build(cfg, cost, asOf).Ok? && k < |cfg.extras|
    ensures var models := Build(cfg, cost, asOf).value.models; var extra := cfg.extras[k];
            extra.name in models && SameButMarks(extra, models[extra.name])
            && (models[extra.name].alias <==> extra.alias || extra.name in cfg.aliases)
  {
    var seeded := Candidates(cfg, cost, asOf, cfg.candidates);
    var full := AddExtras(seeded, cfg.extras).value;
    var n := cfg.extras[k].name;
    assert InCatalogue(cfg.extras, n);
    ExtrasAdd(seeded, cfg.extras, n);
    OverrideKeeps(full.models, cfg.overrides, n);
    AliasesKeep(Override(full.models, cfg.overrides), cfg.aliases, n);
  }

  predicate LastOverride(overrides: seq<(string, string)>, n: string, k: nat) {
    k < |overrides| && overrides[k].0 == n && forall j | k < j < |overrides| :: overrides[j].0 != n
  }

  predicate NotOverridden(overrides: seq<(string, string)>, n: string) {
    forall j | 0 <= j < |overrides| :: overrides[j].0 != n
  }

  lemma {:induction false} OverrideSets(models: map<string, Model>, overrides: seq<(string, string)>, n: string, k: nat)
    requires n in models
    ensures n in Override(models, overrides)
    ensures NotOverridden(overrides, n) ==> Override(models, overrides)[n] == models[n]
    ensures LastOverride(overrides, n, k) ==> Override(models, overrides)[n].modalities == Some(overrides[k].1)
  {
    if overrides != [] {
      var front := overrides[..|overrides| - 1];
      OverrideSets(models, front, n, k);
      assert NotOverridden(overrides, n) ==> NotOverridden(front, n);
      assert LastOverride(overrides, n, k) && k < |front| ==> LastOverride(front, n, k);
    }
  }

  /** The modalities of a candidate's model are those of its entry, unless the last override of its name says others. */
  lemma BuildModalities(cfg: Config, cost: map<string, Entry>, asOf: int, n: string, k: nat, o: nat)
    requires Build(cfg, cost, asOf).Ok? && FirstAs(cfg, cost, asOf, cfg.candidates, n, k)
    ensures var models := Build(cfg, cost, asOf).value.models;
            && n in models
            && (NotOverridden(cfg.overrides, n)
              ==> models[n].modalities == Encode(ModalitiesFor(cost[cfg.candidates[k].key])))
            && (LastOverride(cfg.overrides, n, o) ==> models[n].modalities == Some(cfg.overrides[o].1))
  {
    var seeded := Candidates(cfg, cost, asOf, cfg.candidates);
    var full := AddExtras(seeded, cfg.extras).value;
    SeededFromFirst(cfg, cost, asOf, cfg.candidates, n, k);
    ExtrasAdd(seeded, cfg.extras, n);
    OverrideSets(full.models, cfg.overrides, n, o);
    AliasesKeep(Override(full.models, cfg.overrides), cfg.aliases, n);
  }

  /** The modalities of an extra, likewise. */
  lemma BuildExtraModalities(cfg: Config, cost: map<string, Entry>, asOf: int, k: nat, o: nat)
    requires Build(cfg, cost, asOf).Ok? && k < |cfg.extras|
    ensures var models := Build(cfg, cost, asOf).value.models; var n := cfg.extras[k].name;
            && n in models
            && (NotOverridden(cfg.overrides, n) ==> models[n].modalities == cfg.extras[k].modalities)
            && (LastOverride(cfg.overrides, n, o) ==> models[n].modalities == Some(cfg.overrides[o].1))
  {
    var seeded := Candidates(cfg, cost, asOf, cfg.candidates);
    var full := AddExtras(seeded, cfg.extras).value;
    var n := cfg.extras[k].name;
    assert InCatalogue(cfg.extras, n);
    ExtrasAdd(seeded, cfg.extras, n);
    OverrideSets(full.models, cfg.overrides, n, o);
    AliasesKeep(Override(full.models, cfg.overrides), cfg.aliases, n);
  }

  // ---- when a build succeeds ---------------------------------------------------------------------------

  /** The name of an extra or of a usable candidate. */
  predicate Seeded(cfg: Config, cost: map<string, Entry>, asOf: int, n: string) {
    InCatalogue(cfg.extras, n) || !NoneAs(cfg, cost, asOf, cfg.candidates, n)
  }

  /** The provider of a seeded name: its extra's, or its first usable candidate's. */
  ghost predicate ProvidedBy(cfg: Config, cost: map<string, Entry>, asOf: int, n: string, provider: string) {
    || (exists k :: 0 <= k < |cfg.extras| && cfg.extras[k].name == n && cfg.extras[k].provider == provider)
    || (exists k: nat :: FirstAs(cfg, cost, asOf, cfg.candidates, n, k) && cfg.candidates[k].provider == provider)
  }

  /** No extra repeats another one or a candidate. */
  predicate ExtrasFresh(cfg: Config, cost: map<string, Entry>, asOf: int) {
    DistinctNames(cfg.extras)
    && forall k | 0 <= k < |cfg.extras| :: NoneAs(cfg, cost, asOf, cfg.candidates, cfg.extras[k].name)
  }

  predicate AliasesSeeded(cfg: Config, cost: map<string, Entry>, asOf: int) {
    forall k | 0 <= k < |cfg.aliases| :: Seeded(cfg, cost, asOf, cfg.aliases[k])
  }

  ghost predicate RetiredRight(cfg: Config, cost: map<string, Entry>, asOf: int, r: Retired) {
    && !Seeded(cfg, cost, asOf, r.former) && Seeded(cfg, cost, asOf, r.replacement)
    && ProvidedBy(cfg, cost, asOf, r.replacement, r.provider)
  }

  lemma {:induction false} AddExtrasOkIff(d: Draft, extras: seq<Model>)
    ensures AddExtras(d, extras).Ok? <==>
              DistinctNames(extras) && forall k | 0 <= k < |extras| :: extras[k].name !in d.models
    ensures AddExtras(d, extras).Err? ==>
              AddExtras(d, extras).error.DuplicateExtra? && InCatalogue(extras, AddExtras(d, extras).error.name)
    decreases |extras|
  {
    if extras != [] && extras[0].name !in d.models {
      var rest := extras[1..];
      AddExtrasOkIff(Put(d, extras[0]), rest);
      assert forall k | 0 < k < |extras| :: extras[k] == rest[k - 1];
      assert forall k | 0 <= k < |rest| :: rest[k] == extras[k + 1];
      assert DistinctNames(extras) <==>
          DistinctNames(rest) && forall k | 0 <= k < |rest| :: rest[k].name != extras[0].name;
    }
  }

  lemma {:induction false} MarkAliasesOkIff(models: map<string, Model>, aliases: seq<string>)
    ensures MarkAliases(models, aliases).Ok? <==> forall k | 0 <= k < |aliases| :: aliases[k] in models
    ensures MarkAliases(models, aliases).Err? ==>
              var e := MarkAliases(models, aliases).error; e.AliasNotSeeded? && e.name in aliases && e.name !in models
    decreases |aliases|
  {
    if aliases != [] && aliases[0] in models {
      MarkAliasesOkIff(models[aliases[0] := models[aliases[0]].(alias := true)], aliases[1..]);
      assert forall k | 0 < k < |aliases| :: aliases[k] == aliases[1..][k - 1];
    }
  }

  lemma {:induction false} CheckRetiredIff(models: map<string, Model>, retired: seq<Retired>)
    ensures CheckRetired(models, retired) == None <==>
              forall k | 0 <= k < |retired| :: RetiredFault(models, retired[k]) == None
    ensures CheckRetired(models, retired).Some? ==>
              exists k :: 0 <= k < |retired| && RetiredFault(models, retired[k]) == CheckRetired(models, retired)
    decreases |retired|
  {
    if retired != [] && RetiredFault(models, retired[0]) == None {
      CheckRetiredIff(models, retired[1..]);
      assert forall k | 0 < k < |retired| :: retired[k] == retired[1..][k - 1];
      assert forall k | 0 <= k < |retired[1..]| :: retired[1..][k] == retired[k + 1];
    }
  }

  /** The models before the retired names are looked at, when the extras and the aliases are right. */
  lemma SeededModels(
    cfg: Config, cost: map<string, Entry>, asOf: int, full: Draft, models: map<string, Model>, n: string)
    requires AddExtras(Candidates(cfg, cost, asOf, cfg.candidates), cfg.extras) == Ok(full)
    requires models.Keys == full.models.Keys
    requires n in models ==> SameButMarks(full.models[n], models[n])
    ensures n in models <==> Seeded(cfg, cost, asOf, n)
    ensures n in models ==> forall p :: models[n].provider == p <==> ProvidedBy(cfg, cost, asOf, n, p)
  {
    var seeded := Candidates(cfg, cost, asOf, cfg.candidates);
    SeededIff(cfg, cost, asOf, cfg.candidates, n);
    ExtrasAdd(seeded, cfg.extras, n);
    if n in seeded.models {
      var k := FirstUsable(cfg, cost, asOf, cfg.candidates, n);
      SeededFromFirst(cfg, cost, asOf, cfg.candidates, n, k);
      assert FirstAs(cfg, cost, asOf, cfg.candidates, n, k);
      assert !InCatalogue(cfg.extras, n);
    } else if InCatalogue(cfg.extras, n) {
      var k :| 0 <= k < |cfg.extras| && cfg.extras[k].name == n;
      assert full.models[n] == cfg.extras[k];
    }
  }

  lemma OverriddenKeys(models: map<string, Model>, overrides: seq<(string, string)>)
    ensures Override(models, overrides).Keys == models.Keys
  {
    forall n
      ensures n in Override(models, overrides) <==> n in models
    {
      OverrideKeeps(models, overrides, n);
    }
  }

  lemma MarkedKeys(models: map<string, Model>, aliases: seq<string>)
    requires MarkAliases(models, aliases).Ok?
    ensures MarkAliases(models, aliases).value.Keys == models.Keys
  {
    forall n
      ensures n in MarkAliases(models, aliases).value <==> n in models
    {
      AliasesKeep(models, aliases, n);
    }
  }

  /** The extras decide the first stage. */
  lemma ExtrasStage(cfg: Config, cost: map<string, Entry>, asOf: int)
    ensures AddExtras(Candidates(cfg, cost, asOf, cfg.candidates), cfg.extras).Ok? <==> ExtrasFresh(cfg, cost, asOf)
  {
    var seeded := Candidates(cfg, cost, asOf, cfg.candidates);
    AddExtrasOkIff(seeded, cfg.extras);
    forall k | 0 <= k < |cfg.extras|
      ensures cfg.extras[k].name !in seeded.models <==> NoneAs(cfg, cost, asOf, cfg.candidates, cfg.extras[k].name)
    {
      SeededIff(cfg, cost, asOf, cfg.candidates, cfg.extras[k].name);
    }
  }

  /** The aliases decide the second. */
  lemma AliasStage(cfg: Config, cost: map<string, Entry>, asOf: int, full: Draft)
    requires AddExtras(Candidates(cfg, cost, asOf, cfg.candidates), cfg.extras) == Ok(full)
    ensures MarkAliases(Override(full.models, cfg.overrides), cfg.aliases).Ok? <==> AliasesSeeded(cfg, cost, asOf)
    ensures MarkAliases(Override(full.models, cfg.overrides), cfg.aliases).Err? ==>
              var e := MarkAliases(Override(full.models, cfg.overrides), cfg.aliases).error;
              e.AliasNotSeeded? && e.name in cfg.aliases && !Seeded(cfg, cost, asOf, e.name)
  {
    var models := Override(full.models, cfg.overrides);
    MarkAliasesOkIff(models, cfg.aliases);
    OverriddenKeys(full.models, cfg.overrides);
    forall n
      ensures n in models <==> Seeded(cfg, cost, asOf, n)
    {
      OverrideKeeps(full.models, cfg.overrides, n);
      SeededModels(cfg, cost, asOf, full, models, n);
    }
  }

  /** And the retired names the last: each is right exactly when nothing is found wrong with it. */
  lemma RetiredStage(
    cfg: Config, cost: map<string, Entry>, asOf: int, full: Draft, models: map<string, Model>, r: Retired)
    requires AddExtras(Candidates(cfg, cost, asOf, cfg.candidates), cfg.extras) == Ok(full)
    requires MarkAliases(Override(full.models, cfg.overrides), cfg.aliases) == Ok(models)
    ensures RetiredFault(models, r) == None <==> RetiredRight(cfg, cost, asOf, r)
    ensures RetiredFault(models, r) == Some(StillSeeded(r.former)) <==> Seeded(cfg, cost, asOf, r.former)
    ensures RetiredFault(models, r) == Some(TargetNotSeeded(r.former)) <==>
              !Seeded(cfg, cost, asOf, r.former) && !Seeded(cfg, cost, asOf, r.replacement)
  {
    OverriddenKeys(full.models, cfg.overrides);
    MarkedKeys(Override(full.models, cfg.overrides), cfg.aliases);
    var names := [r.former, r.replacement];
    forall k | 0 <= k < 2
      ensures names[k] in models <==> Seeded(cfg, cost, asOf, names[k])
      ensures names[k] in models ==>
                forall p :: models[names[k]].provider == p <==> ProvidedBy(cfg, cost, asOf, names[k], p)
    {
      OverrideKeeps(full.models, cfg.overrides, names[k]);
      AliasesKeep(Override(full.models, cfg.overrides), cfg.aliases, names[k]);
      SeededModels(cfg, cost, asOf, full, models, names[k]);
    }
    assert names[0] == r.former && names[1] == r.replacement;
  }

  /** A build succeeds exactly when no extra repeats a name, every alias is seeded, and every retired name is gone
      with a seeded replacement of its provider. */
  lemma BuildSucceedsIff(cfg: Config, cost: map<string, Entry>, asOf: int)
    ensures Build(cfg, cost, asOf).Ok? <==>
              && ExtrasFresh(cfg, cost, asOf) && AliasesSeeded(cfg, cost, asOf)
              && forall k | 0 <= k < |cfg.retired| :: RetiredRight(cfg, cost, asOf, cfg.retired[k])
    ensures Build(cfg, cost, asOf).Err? ==>
              match Build(cfg, cost, asOf).error
              case DuplicateExtra(n) => !ExtrasFresh(cfg, cost, asOf) && InCatalogue(cfg.extras, n)
              case AliasNotSeeded(n) =>
                ExtrasFresh(cfg, cost, asOf) && n in cfg.aliases && !Seeded(cfg, cost, asOf, n)
              case _ => ExtrasFresh(cfg, cost, asOf) && AliasesSeeded(cfg, cost, asOf)
  {
    ExtrasStage(cfg, cost, asOf);
    AddExtrasOkIff(Candidates(cfg, cost, asOf, cfg.candidates), cfg.extras);
    if ExtrasFresh(cfg, cost, asOf) {
      var full := AddExtras(Candidates(cfg, cost, asOf, cfg.candidates), cfg.extras).value;
      AliasStage(cfg, cost, asOf, full);
      if AliasesSeeded(cfg, cost, asOf) {
        var models := MarkAliases(Override(full.models, cfg.overrides), cfg.aliases).value;
        CheckRetiredIff(models, cfg.retired);
        forall k | 0 <= k < |cfg.retired|
          ensures RetiredFault(models, cfg.retired[k]) == None <==> RetiredRight(cfg, cost, asOf, cfg.retired[k])
        {
          RetiredStage(cfg, cost, asOf, full, models, cfg.retired[k]);
        }
      }
    }
  }

  // ---- built, then upserted ---------------------------------------------------------------------------

  /** The hand-kept lists that reach the catalogue settle: the last override of each seeded name, and the extras without
      one. */
  ghost predicate HandListsSettle(cfg: Config, models: map<string, Model>) {
    && (forall o | 0 <= o < |cfg.overrides| :: OverrideSettles(cfg, models, o))
    && (forall k | 0 <= k < |cfg.extras| :: ExtraSettles(cfg, k))
  }

  predicate OverrideSettles(cfg: Config, models: map<string, Model>, o: nat)
    requires o < |cfg.overrides|
  {
    var n := cfg.overrides[o].0;
    n in models && LastOverride(cfg.overrides, n, o) ==> Settling(Some(cfg.overrides[o].1))
  }

  predicate ExtraSettles(cfg: Config, k: nat)
    requires k < |cfg.extras|
  {
    NotOverridden(cfg.overrides, cfg.extras[k].name) ==> Settling(cfg.extras[k].modalities)
  }

  ghost predicate ModelsSettle(models: map<string, Model>) {
    forall n | n in models :: Settling(models[n].modalities)
  }

  lemma RecordSettles(e: Entry)
    ensures Settling(Encode(ModalitiesFor(e)))
  {
    assert AreParts(ModalitiesFor(e));
    PartsOfEncode(ModalitiesFor(e));
    SettlingIff(Encode(ModalitiesFor(e)));
  }

  lemma {:induction false} AnOverrideIsLast(overrides: seq<(string, string)>, n: string) returns (o: nat)
    requires !NotOverridden(overrides, n)
    ensures LastOverride(overrides, n, o)
  {
    o := |overrides| - 1;
    if overrides[o].0 != n {
      var front := overrides[..o];
      assert forall j | 0 <= j < |front| :: front[j] == overrides[j];
      o := AnOverrideIsLast(front, n);
    }
  }

  lemma {:induction false} FirstUsable(
    cfg: Config, cost: map<string, Entry>, asOf: int, cs: seq<Candidate>, n: string) returns (k: nat)
    requires !NoneAs(cfg, cost, asOf, cs, n)
    ensures FirstAs(cfg, cost, asOf, cs, n, k)
  {
    var front := cs[..|cs| - 1];
    if NoneAs(cfg, cost, asOf, front, n) {
      k := |cs| - 1;
      assert forall j | 0 <= j < k :: front[j] == cs[j];
    } else {
      k := FirstUsable(cfg, cost, asOf, front, n);
    }
  }

  /** What a name of the catalogue has for modalities, wherever it comes from. */
  lemma NameSettles(cfg: Config, cost: map<string, Entry>, asOf: int, n: string)
    requires Build(cfg, cost, asOf).Ok? && n in Build(cfg, cost, asOf).value.models
    requires HandListsSettle(cfg, Build(cfg, cost, asOf).value.models)
    ensures Settling(Build(cfg, cost, asOf).value.models[n].modalities)
  {
    var o := 0;
    if !NotOverridden(cfg.overrides, n) {
      o := AnOverrideIsLast(cfg.overrides, n);
      assert OverrideSettles(cfg, Build(cfg, cost, asOf).value.models, o);
    }
    BuildNames(cfg, cost, asOf, n);
    if InCatalogue(cfg.extras, n) {
      var k :| 0 <= k < |cfg.extras| && cfg.extras[k].name == n;
      BuildExtraModalities(cfg, cost, asOf, k, o);
      assert ExtraSettles(cfg, k);
    } else {
      var k := FirstUsable(cfg, cost, asOf, cfg.candidates, n);
      BuildModalities(cfg, cost, asOf, n, k, o);
      RecordSettles(cost[cfg.candidates[k].key]);
    }
  }

  lemma OverridesOfSettled(cfg: Config, cost: map<string, Entry>, asOf: int, o: nat)
    requires Build(cfg, cost, asOf).Ok? && o < |cfg.overrides| && ModelsSettle(Build(cfg, cost, asOf).value.models)
    ensures OverrideSettles(cfg, Build(cfg, cost, asOf).value.models, o)
  {
    var n := cfg.overrides[o].0;
    if n in Build(cfg, cost, asOf).value.models && LastOverride(cfg.overrides, n, o) {
      BuildNames(cfg, cost, asOf, n);
      if InCatalogue(cfg.extras, n) {
        var k :| 0 <= k < |cfg.extras| && cfg.extras[k].name == n;
        BuildExtraModalities(cfg, cost, asOf, k, o);
      } else {
        var k := FirstUsable(cfg, cost, asOf, cfg.candidates, n);
        BuildModalities(cfg, cost, asOf, n, k, o);
      }
    }
  }

  /** The lists of a successful build settle exactly when the hand-kept ones do: those made from the model table always
      do. */
  lemma BuildSettlesIff(cfg: Config, cost: map<string, Entry>, asOf: int)
    requires Build(cfg, cost, asOf).Ok?
    ensures var models := Build(cfg, cost, asOf).value.models; ModelsSettle(models) <==> HandListsSettle(cfg, models)
  {
    var models := Build(cfg, cost, asOf).value.models;
    if HandListsSettle(cfg, models) {
      forall n | n in models
        ensures Settling(models[n].modalities)
      {
        NameSettles(cfg, cost, asOf, n);
      }
    } else if ModelsSettle(models) {
      forall o | 0 <= o < |cfg.overrides|
        ensures OverrideSettles(cfg, models, o)
      {
        OverridesOfSettled(cfg, cost, asOf, o);
      }
      forall k | 0 <= k < |cfg.extras|
        ensures ExtraSettles(cfg, k)
      {
        BuildExtraModalities(cfg, cost, asOf, k, 0);
      }
    }
  }

  /** The catalogue listed in some order. */
  ghost predicate ListsAll(models: map<string, Model>, out: seq<Model>) {
    && (forall k | 0 <= k < |out| :: out[k].name in models && models[out[k].name] == out[k])
    && (forall n | n in models :: exists k :: 0 <= k < |out| && out[k] == models[n])
    && (forall j, k | 0 <= j < k < |out| :: out[j] != out[k])
  }

  /** The catalogue of a successful build, upserted in any order, changes nothing the second time, for every earlier
      table, if and only if the hand-kept lists in it settle. */
  lemma BuiltCatalogueSettlesIff(cfg: Config, cost: map<string, Entry>, asOf: int, out: seq<Model>)
    requires Build(cfg, cost, asOf).Ok? && ListsAll(Build(cfg, cost, asOf).value.models, out)
    ensures (forall t :: UpsertsOnce(t, out)) <==> HandListsSettle(cfg, Build(cfg, cost, asOf).value.models)
  {
    var models := Build(cfg, cost, asOf).value.models;
    BuildWellKept(cfg, cost, asOf);
    assert DistinctNames(out);
    UpsertIsIdempotentIff(out);
    BuildSettlesIff(cfg, cost, asOf);
  }
}
