/** clean_json: cleaning a configuration file, what its output holds, and when its check of the edit fails. */
module CleanFile {
  import opened Lexical
  import opened Syntax
  import opened Options
  import opened Values
  import opened Pruning
  import opened Hooks
  import opened Conditions
  import opened Deletion
  import opened Recovery
  import opened CleaningAgain
  import opened KeyByKey
  import Spans

  // The output is the text without the spans of the members removed and of the commas that go with them.
  ghost predicate WithoutMembers(text: string, removed: set<Path>, output: string) {
    && ParseDocument(text, Jsonc).Got?
    && var doc := DocumentOf(text);
      output == Spans.Keep(text, 0, Spans.NodeSpans(doc.root, |doc.lead|, [], removed))
  }

  // What the output loads to is the configuration cleaned, and the problems are reported.
  ghost predicate Obeys(text: string, r: CleanResult, settings: Settings) {
    && r.Edited? && LoadJson(text).Some? && IsObj(LoadJson(text).value)
    && LoadJson(r.output).Some? && IsObj(LoadJson(r.output).value)
    && var before, after := LoadJson(text).value.items, LoadJson(r.output).value.items;
      IsCleaned(before, after, settings) && IsReported(before, after, r.problems, settings)
  }

  // Cleans a configuration file: the text is edited at the recorded paths, the edited text is loaded again
  // and compared with the configuration edited in memory. The comparison fails exactly when the hooks
  // container itself was dropped, and then the run is refused.
  method CleanJson(text: string, settings: Settings) returns (r: CleanResult)
    ensures LoadJson(text).None? ==> r == Refused(Unreadable)
    ensures LoadJson(text).Some? && !IsObj(LoadJson(text).value) ==> r == Refused(NotAnObject)
    ensures LoadJson(text).Some? && IsObj(LoadJson(text).value) ==>
      var config := LoadJson(text).value;
      var complaint := ShapeError(config.items, settings.host);
      var removals := Removals(config.items, settings);
      if complaint.Some? then r == Refused(complaint.value)
      else if HooksDropped(config.items, settings.own) then r == Refused(VerificationFailed)
      else
        && r.Edited? && r.problems == Reports(config.items, settings)
        && LoadJson(r.output) == Some(Prune(config, [], removals))
        && (if removals == {} then r.output == text else WithoutMembers(text, removals, r.output))
    ensures r.Edited? ==> Obeys(text, r, settings)
  {
    hide LoadJson, Lookup, PruneItems, Ascii, UniqueItems, DoneOnly, HooksFit, ListIfPresent, ObjIfPresent, ServersFit, HooksDropped, Reports, Removals,
      IsCleaned, IsReported, ShapeError;
    var loaded := LoadJson(text);
    if loaded.None? { return Refused(Unreadable); }
    if !IsObj(loaded.value) { return Refused(NotAnObject); }
    var config := loaded.value.items;
    var cleaner := new Cleaner(settings, config);
    LoadedIsUnique(text);
    var error := cleaner.CleanAll(config);
    if error.Some? { return Refused(error.value); }
    DroppedIsRemoved(config, settings);
    PruneNothing(loaded.value, [], {});
    if !HooksDropped(config, settings.own) { CleanedObeys(config, settings); }
    ReportsObey(config, settings);
    if cleaner.removed == {} { return Edited(text, cleaner.problems); }
    var output := DeleteJsonMembers(text, cleaner.removed);
    if cleaner.sentinel || LoadJson(output.value) != Some(Container(Obj, cleaner.expected)) {
      return Refused(VerificationFailed);
    }
    r := Edited(output.value, cleaner.problems);
  }

  // Two runs in a row: where every value that the first one cleans stays clean, the second leaves its output as it is.
  method CleanJsonTwice(text: string, settings: Settings) returns (first: CleanResult, second: CleanResult)
    ensures first.Edited? ==> LoadJson(text).Some? && IsObj(LoadJson(text).value)
    ensures first.Edited? && FileStaysClean(LoadJson(text).value.items, settings) ==>
      second.Edited? && second.output == first.output
  {
    hide LoadJson, FileStaysClean, Removals, Reports, ShapeError, HooksDropped, PruneItems, WithoutMembers;
    first := CleanJson(text, settings);
    if first.Refused? { return first, first; }
    ghost var config := LoadJson(text).value;
    second := CleanJson(first.output, settings);
    LoadedIsUnique(text);
    SecondFileRun(config.items, settings);
  }
}
