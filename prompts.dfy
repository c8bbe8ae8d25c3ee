/**
 * The prompt store of the bot (class PromptManager in prompt_manager.py).
 *
 * The prompts folder is a map from file name to the list of prompt texts the
 * file holds; the used-prompt log (used_prompts.json) is an ordered dictionary
 * from file name to the records archived from that file.  save_prompt and
 * move_prompt_to_used load a JSON file, change it and write it back;
 * get_random_prompt and review_used_prompts only read; __init__ writes an
 * empty log only when none exists.  Here those files are the fields of one
 * PromptManager object.
 */
module Prompts {
  import opened Wrappers
  import opened Text

  const USED_PROMPTS_FILE := "used_prompts.json"
  const JSON_EXTENSION := ".json"

  const NO_USED_PROMPTS := "No used prompts available."
  const REVIEW_TITLE := "Used Prompts:\n"

  /** The exceptions the source raises. */
  datatype PromptError =
    | NoPromptFiles                      // FileNotFoundError of get_random_prompt
    | EmptyPromptFile(filename: string)  // ValueError of get_random_prompt
    | FileNotFound(filename: string)     // FileNotFoundError from open() in move_prompt_to_used

  datatype Result<T> = Ok(value: T) | Err(error: PromptError)

  /** Outcome of an operation that returns nothing when it succeeds. */
  datatype Outcome = Done | Failed(error: PromptError)

  /** What get_random_prompt returns: {"filename": ..., "prompt": ...}. */
  datatype Drawn = Drawn(filename: string, prompt: string)

  /** One entry of the used-prompt log. */
  datatype UsedRecord = UsedRecord(prompt: string, originFile: string, threadLink: string)

  /**
   * The used-prompt log: a JSON object, so a dictionary whose keys keep the
   * order in which they were first inserted.  `order` lists the keys in that
   * order, `entries` maps each key to its records.
   */
  datatype UsedLog = UsedLog(order: seq<string>, entries: map<string, seq<UsedRecord>>)

  const EMPTY_LOG := UsedLog([], map[])

  /** `order` lists every key of `entries` exactly once. */
  ghost predicate WellFormed(log: UsedLog)
  {
    && (forall i, j :: 0 <= i < j < |log.order| ==> log.order[i] != log.order[j])
    && (forall f :: f in log.order <==> f in log.entries)
  }

  /** The prompt texts of a file, a missing file read as the empty list. */
  function PromptsIn(files: map<string, seq<string>>, filename: string): seq<string>
  {
    if filename in files then files[filename] else []
  }

  /** The records logged under `filename`, none when the key is absent. */
  function RecordsAt(entries: map<string, seq<UsedRecord>>, filename: string): seq<UsedRecord>
  {
    if filename in entries then entries[filename] else []
  }

  function RecordsOf(log: UsedLog, filename: string): seq<UsedRecord>
  {
    RecordsAt(log.entries, filename)
  }

  // ---------------------------------------------------------------------------
  // get_random_prompt: which files take part in the draw
  // ---------------------------------------------------------------------------

  /** A name in the prompts folder that get_random_prompt may draw from. */
  predicate IsPromptFile(filename: string)
  {
    EndsWith(filename, JSON_EXTENSION) && filename != USED_PROMPTS_FILE
  }

  function Candidates(files: map<string, seq<string>>): set<string>
  {
    set f | f in files && IsPromptFile(f)
  }

  // ---------------------------------------------------------------------------
  // save_prompt
  // ---------------------------------------------------------------------------

  /**
   * The folder after save_prompt(filename, text): the file, created empty when
   * missing, has `text` appended even when it already holds it; no other file
   * changes and no file disappears.
   */
  function AppendPrompt(files: map<string, seq<string>>, filename: string, text: string): (r: map<string, seq<string>>)
    ensures r.Keys == files.Keys + {filename}
    ensures PromptsIn(r, filename) == PromptsIn(files, filename) + [text]
    ensures forall f :: f in files && f != filename ==> r[f] == files[f]
  {
    files[filename := PromptsIn(files, filename) + [text]]
  }

  /** Appending never rejects a duplicate: the number of copies of `text` grows by one. */
  lemma {:induction false} AppendKeepsDuplicates(files: map<string, seq<string>>, filename: string, text: string)
    ensures multiset(PromptsIn(AppendPrompt(files, filename, text), filename))[text]
         == multiset(PromptsIn(files, filename))[text] + 1
  {
    var before := PromptsIn(files, filename);
    assert PromptsIn(AppendPrompt(files, filename, text), filename) == before + [text];
    assert multiset(before + [text]) == multiset(before) + multiset{text};
  }

  /**
   * Saving to a file that takes part in the draw makes the draw possible:
   * the file is a candidate and it is not empty.
   */
  lemma {:induction false} SavedFileIsDrawable(files: map<string, seq<string>>, filename: string, text: string)
    requires IsPromptFile(filename)
    ensures filename in Candidates(AppendPrompt(files, filename, text))
    ensures AppendPrompt(files, filename, text)[filename] != []
  {
    assert PromptsIn(AppendPrompt(files, filename, text), filename) == PromptsIn(files, filename) + [text];
  }

  // ---------------------------------------------------------------------------
  // move_prompt_to_used: list.remove and str.replace
  // ---------------------------------------------------------------------------

  /** Position of the first occurrence of `x`. */
  function IndexOf(list: seq<string>, x: string): (i: nat)
    requires x in list
    ensures i < |list| && list[i] == x && x !in list[..i]
  {
    if list[0] == x then 0
    else
      var j := IndexOf(list[1..], x);
      assert list[..j + 1] == [list[0]] + list[1..][..j];
      j + 1
  }

  /**
   * Python's `if x in list: list.remove(x)`: exactly the first occurrence of
   * `x` is taken out; a list without `x` is left as it is.
   */
  function RemoveFirst(list: seq<string>, x: string): (r: seq<string>)
    ensures x !in list ==> r == list
    ensures x in list ==> r == list[..IndexOf(list, x)] + list[IndexOf(list, x) + 1..]
  {
    if list == [] then []
    else if list[0] == x then
      CutAt(list, 0);
      list[1..]
    else
      var rest := RemoveFirst(list[1..], x);
      ConsTail(list);
      if x in list then
        var j := IndexOf(list[1..], x);
        assert IndexOf(list, x) == j + 1;
        CutAt(list, j + 1);
        [list[0]] + rest
      else
        [list[0]] + rest
  }

  lemma ConsTail<T>(list: seq<T>)
    requires list != []
    ensures list == [list[0]] + list[1..]
    ensures forall y :: y in list <==> y == list[0] || y in list[1..]
  {
  }

  /** Cutting position `i` out of a list, seen from its tail. */
  lemma CutAt<T>(list: seq<T>, i: nat)
    requires i < |list|
    ensures i == 0 ==> list[..i] + list[i + 1..] == list[1..]
    ensures i > 0 ==> list[..i] + list[i + 1..] == [list[0]] + (list[1..][..i - 1] + list[1..][i..])
  {
    if i > 0 {
      assert list[..i] == [list[0]] + list[1..][..i - 1];
      assert list[i + 1..] == list[1..][i..];
    }
  }

  /** Removing a present text shortens the list by one and takes exactly one copy of it. */
  lemma {:induction false} RemoveFirstTakesOne(list: seq<string>, x: string)
    requires x in list
    ensures |RemoveFirst(list, x)| == |list| - 1
    ensures multiset(RemoveFirst(list, x)) == multiset(list) - multiset{x}
  {
    var i := IndexOf(list, x);
    assert list == list[..i] + [x] + list[i + 1..];
    assert multiset(list) == multiset(list[..i]) + multiset{x} + multiset(list[i + 1..]);
  }

  /**
   * save_prompt followed by move_prompt_to_used of the same text: when the
   * file already held the text, the older copy is the one removed and the new
   * one stays at the end; otherwise the file is back as it was.
   */
  lemma {:induction false} RemoveAfterAppend(list: seq<string>, x: string)
    ensures RemoveFirst(list + [x], x) == if x in list then RemoveFirst(list, x) + [x] else list
  {
    var longer := list + [x];
    var k := IndexOf(longer, x);
    assert forall j :: 0 <= j < k ==> longer[j] != x by {
      forall j | 0 <= j < k ensures longer[j] != x {
        assert longer[..k][j] == longer[j];
      }
    }
    if x in list {
      var i := IndexOf(list, x);
      assert longer[i] == x;
      assert forall j :: 0 <= j < i ==> list[j] != x by {
        forall j | 0 <= j < i ensures list[j] != x {
          assert list[..i][j] == list[j];
        }
      }
      assert longer[k] == list[k];
      assert k == i;
      assert longer[..k] == list[..i];
      assert longer[k + 1..] == list[i + 1..] + [x];
    } else {
      assert forall j :: 0 <= j < |list| ==> longer[j] == list[j];
      assert k == |list|;
      assert longer[..k] == list;
    }
  }

  /**
   * Python's `s.replace(pat, "")`: scanning from the left, every occurrence of
   * `pat` is deleted, occurrences never overlapping.
   */
  function DeleteAll(s: string, pat: string): (r: string)
    requires pat != []
    ensures |r| <= |s|
    decreases |s|
  {
    if |s| < |pat| then s
    else if s[..|pat|] == pat then DeleteAll(s[|pat|..], pat)
    else [s[0]] + DeleteAll(s[1..], pat)
  }

  /** A string without `pat` comes out of the replacement unchanged. */
  lemma {:induction false} DeleteAllWithoutMatch(s: string, pat: string)
    requires pat != [] && !Contains(s, pat)
    ensures DeleteAll(s, pat) == s
    decreases |s|
  {
    if |s| >= |pat| {
      DeleteAllWithoutMatch(s[1..], pat);
    }
  }

  /**
   * The occurrence of ".json" that follows a prefix free of ".json" is the
   * one that is deleted: no earlier match can straddle it, because "." occurs
   * in ".json" only at its start.
   */
  lemma {:induction false} DeleteJsonAfter(a: string, b: string)
    requires !Contains(a, JSON_EXTENSION)
    ensures DeleteAll(a + JSON_EXTENSION + b, JSON_EXTENSION) == a + DeleteAll(b, JSON_EXTENSION)
    decreases |a|
  {
    var s := a + JSON_EXTENSION + b;
    if a == [] {
      assert s[..5] == JSON_EXTENSION;
      assert s[5..] == b;
    } else {
      if |a| >= 5 {
        assert s[..5] == a[..5];
      } else {
        assert s[|a|] == '.';
        assert s[..5][|a|] != JSON_EXTENSION[|a|];
      }
      assert s[..5] != JSON_EXTENSION;
      assert s[1..] == a[1..] + JSON_EXTENSION + b;
      DeleteJsonAfter(a[1..], b);
    }
  }

  /** origin_file of a record for "<base>.json" is "<base>" when the base holds no ".json". */
  lemma {:induction false} OriginOfJsonFile(base: string)
    requires !Contains(base, JSON_EXTENSION)
    ensures DeleteAll(base + JSON_EXTENSION, JSON_EXTENSION) == base
  {
    DeleteJsonAfter(base, []);
    assert base + JSON_EXTENSION + [] == base + JSON_EXTENSION;
  }

  /** The record move_prompt_to_used archives. */
  function RecordFor(filename: string, text: string, threadLink: string): UsedRecord
  {
    UsedRecord(text, DeleteAll(filename, JSON_EXTENSION), threadLink)
  }

  /**
   * The log after one record is archived under `filename`: a missing key is
   * created last with an empty list first; the record goes at the end of the
   * key's list; every other key and every earlier record is untouched.
   */
  function Archive(log: UsedLog, filename: string, rec: UsedRecord): (r: UsedLog)
    requires WellFormed(log)
    ensures WellFormed(r)
    ensures r.entries.Keys == log.entries.Keys + {filename}
    ensures RecordsOf(r, filename) == RecordsOf(log, filename) + [rec]
    ensures forall f :: f in log.entries && f != filename ==> r.entries[f] == log.entries[f]
    ensures r.order == if filename in log.entries then log.order else log.order + [filename]
  {
    if filename in log.entries then
      UsedLog(log.order, log.entries[filename := log.entries[filename] + [rec]])
    else
      UsedLog(log.order + [filename], log.entries[filename := [rec]])
  }

  // ---------------------------------------------------------------------------
  // review_used_prompts
  // ---------------------------------------------------------------------------

  function FileHeader(filename: string): string
  {
    "\n**From File:** " + filename + "\n"
  }

  function RecordEntry(r: UsedRecord): string
  {
    "- **Prompt:** " + r.prompt + "\n"
    + "  **Origin File:** " + r.originFile + "\n"
    + "  **Thread Link:** " + r.threadLink + "\n"
  }

  /**
   * `acc` followed by one entry per record, in stored order: the inner loop
   * of review_used_prompts run from the message `acc`.
   */
  function AppendEntries(acc: string, records: seq<UsedRecord>): (r: string)
    ensures StartsWith(r, acc)
    decreases |records|
  {
    if records == [] then acc
    else
      var next := acc + RecordEntry(records[0]);
      assert next[..|acc|] == acc;
      var r := AppendEntries(next, records[1..]);
      assert r[..|acc|] == r[..|next|][..|acc|];
      r
  }

  /**
   * `acc` followed, for each key in turn, by its header and its entries: the
   * outer loop of review_used_prompts run from the message `acc`.
   */
  function AppendSections(acc: string, keys: seq<string>, entries: map<string, seq<UsedRecord>>): (r: string)
    ensures StartsWith(r, acc)
    decreases |keys|
  {
    if keys == [] then acc
    else
      var next := acc + FileHeader(keys[0]);
      assert next[..|acc|] == acc;
      var r := AppendSections(AppendEntries(next, RecordsAt(entries, keys[0])), keys[1..], entries);
      assert r[..|acc|] == r[..|next|][..|acc|];
      r
  }

  /**
   * The text review_used_prompts returns: the fixed message exactly when the
   * log is empty, otherwise the title followed by the sections.
   */
  function Review(log: UsedLog): (r: string)
    ensures r == NO_USED_PROMPTS <==> log.entries == map[]
    ensures log.entries != map[] ==> StartsWith(r, REVIEW_TITLE)
  {
    if log.entries == map[] then NO_USED_PROMPTS
    else
      var text := AppendSections(REVIEW_TITLE, log.order, log.entries);
      assert text[0] == text[..|REVIEW_TITLE|][0];
      text
  }

  /** The entries of two runs of records come one after the other, in order. */
  lemma {:induction false} EntriesAppend(acc: string, a: seq<UsedRecord>, b: seq<UsedRecord>)
    ensures AppendEntries(acc, a + b) == AppendEntries(AppendEntries(acc, a), b)
    decreases |a|
  {
    if a == [] {
      assert a + b == b;
    } else {
      assert (a + b)[0] == a[0];
      assert (a + b)[1..] == a[1..] + b;
      EntriesAppend(acc + RecordEntry(a[0]), a[1..], b);
    }
  }

  /** A well-formed log with no entries lists no keys. */
  lemma EmptyLogHasNoKeys(log: UsedLog)
    requires WellFormed(log) && log.entries == map[]
    ensures log.order == []
  {
    if log.order != [] {
      KeyInEntries(log, 0);
      assert false;
    }
  }

  lemma KeyInEntries(log: UsedLog, i: nat)
    requires WellFormed(log) && i < |log.order|
    ensures log.order[i] in log.entries
  {
  }

  /** The sections read only the records of the keys they list. */
  lemma {:induction false} SectionsFrame(acc: string, keys: seq<string>, e1: map<string, seq<UsedRecord>>, e2: map<string, seq<UsedRecord>>)
    requires forall k :: k in keys ==> RecordsAt(e1, k) == RecordsAt(e2, k)
    ensures AppendSections(acc, keys, e1) == AppendSections(acc, keys, e2)
    decreases |keys|
  {
    if keys != [] {
      assert keys[0] in keys;
      assert forall k :: k in keys[1..] ==> k in keys;
      SectionsFrame(AppendEntries(acc + FileHeader(keys[0]), RecordsAt(e1, keys[0])), keys[1..], e1, e2);
    }
  }

  /** A key added at the end contributes its header and entries after all the others. */
  lemma {:induction false} SectionsSnoc(acc: string, keys: seq<string>, entries: map<string, seq<UsedRecord>>, filename: string)
    ensures AppendSections(acc, keys + [filename], entries)
         == AppendEntries(AppendSections(acc, keys, entries) + FileHeader(filename), RecordsAt(entries, filename))
    decreases |keys|
  {
    if keys == [] {
      assert keys + [filename] == [filename];
      assert [filename][1..] == [];
    } else {
      assert (keys + [filename])[0] == keys[0];
      assert (keys + [filename])[1..] == keys[1..] + [filename];
      SectionsSnoc(AppendEntries(acc + FileHeader(keys[0]), RecordsAt(entries, keys[0])), keys[1..], entries, filename);
    }
  }

  /**
   * Archiving under a file name the log does not hold yet adds one header and
   * one entry at the end of the review, and changes nothing before them.
   */
  lemma {:induction false} ReviewAfterArchiveNewFile(log: UsedLog, filename: string, rec: UsedRecord)
    requires WellFormed(log) && filename !in log.entries
    ensures Review(Archive(log, filename, rec))
         == (if log.entries == map[] then REVIEW_TITLE else Review(log)) + FileHeader(filename) + RecordEntry(rec)
  {
    var r := Archive(log, filename, rec);
    assert filename in r.entries;
    assert filename !in log.order;
    var entries' := log.entries[filename := [rec]];
    assert r == UsedLog(log.order + [filename], entries');
    SectionsSnoc(REVIEW_TITLE, log.order, entries', filename);
    SectionsFrame(REVIEW_TITLE, log.order, entries', log.entries);
    assert RecordsAt(entries', filename) == [rec];
    var body := AppendSections(REVIEW_TITLE, log.order, log.entries);
    assert AppendEntries(body + FileHeader(filename), [rec]) == body + FileHeader(filename) + RecordEntry(rec) by {
      assert [rec][0] == rec && [rec][1..] == [];
    }
    if log.entries == map[] {
      EmptyLogHasNoKeys(log);
    }
  }

  // ---------------------------------------------------------------------------
  // The manager object
  // ---------------------------------------------------------------------------

  class PromptManager {
    /** The prompts folder: file name to the prompt texts it holds. */
    var files: map<string, seq<string>>
    /** The used-prompt log, used_prompts.json. */
    var log: UsedLog

    ghost predicate Valid()
      reads this
    {
      WellFormed(log)
    }

    /**
     * __init__: creates the prompts folder when `folder` is None and writes an
     * empty log only when `usedFile` is None, so an existing log is kept.
     */
    constructor (folder: Option<map<string, seq<string>>>, usedFile: Option<UsedLog>)
      requires usedFile.Some? ==> WellFormed(usedFile.value)
      ensures Valid()
      ensures files == if folder.Some? then folder.value else map[]
      ensures log == if usedFile.Some? then usedFile.value else EMPTY_LOG
    {
      if folder.None? {
        files := map[];
      } else {
        files := folder.value;
      }
      if usedFile.None? {
        log := EMPTY_LOG;
      } else {
        log := usedFile.value;
      }
    }

    /**
     * get_random_prompt: fails when no file takes part in the draw, or when the
     * file drawn is empty; otherwise returns a candidate file and one of its
     * texts.  Both draws are free choices; nothing is written back.
     */
    method GetRandomPrompt() returns (r: Result<Drawn>)
      ensures r == Err(NoPromptFiles) <==> Candidates(files) == {}
      ensures r.Ok? ==> r.value.filename in Candidates(files) && r.value.prompt in files[r.value.filename]
      ensures r.Err? ==> r.error.NoPromptFiles? || r.error.EmptyPromptFile?
      ensures r.Err? && r.error.EmptyPromptFile? ==>
                r.error.filename in Candidates(files) && files[r.error.filename] == []
    {
      var candidates := Candidates(files);
      if candidates == {} {
        return Err(NoPromptFiles);
      }
      var selected :| selected in candidates;
      var prompts := files[selected];
      if prompts == [] {
        return Err(EmptyPromptFile(selected));
      }
      var k :| 0 <= k < |prompts|;
      return Ok(Drawn(selected, prompts[k]));
    }

    /** save_prompt: appends the text to the file, creating the file when missing. */
    method SavePrompt(filename: string, text: string)
      requires Valid()
      modifies this
      ensures Valid()
      ensures files == AppendPrompt(old(files), filename, text)
      ensures log == old(log)
    {
      var prompts: seq<string> := [];
      if filename in files {
        prompts := files[filename];
      }
      prompts := prompts + [text];
      files := files[filename := prompts];
    }

    /**
     * move_prompt_to_used: the file must exist; the first copy of the text is
     * removed from it if there is one, and a record is archived under the
     * file name in either case.
     */
    method MovePromptToUsed(filename: string, text: string, threadLink: string) returns (outcome: Outcome)
      requires Valid()
      modifies this
      ensures Valid()
      ensures outcome == if filename in old(files) then Done else Failed(FileNotFound(filename))
      ensures filename !in old(files) ==> files == old(files) && log == old(log)
      ensures filename in old(files) ==>
                && files == old(files)[filename := RemoveFirst(old(files)[filename], text)]
                && log == Archive(old(log), filename, RecordFor(filename, text, threadLink))
    {
      if filename !in files {
        return Failed(FileNotFound(filename));
      }
      var prompts := files[filename];
      if text in prompts {
        prompts := RemoveFirst(prompts, text);
      }
      files := files[filename := prompts];

      var rec := RecordFor(filename, text, threadLink);
      var order, entries := log.order, log.entries;
      if filename !in entries {
        order := order + [filename];
        entries := entries[filename := []];
      }
      entries := entries[filename := entries[filename] + [rec]];
      assert UsedLog(order, entries) == Archive(log, filename, rec);
      log := UsedLog(order, entries);
      return Done;
    }

    /** The inner loop of review_used_prompts: one entry per record, in order. */
    static method AppendRecordEntries(acc: string, records: seq<UsedRecord>) returns (message: string)
      ensures message == AppendEntries(acc, records)
    {
      message := acc;
      var j := 0;
      while j < |records|
        invariant 0 <= j <= |records|
        invariant AppendEntries(message, records[j..]) == AppendEntries(acc, records)
      {
        assert records[j..][0] == records[j] && records[j..][1..] == records[j + 1..];
        message := message + RecordEntry(records[j]);
        j := j + 1;
      }
      assert records[j..] == [];
    }

    /** review_used_prompts: renders the log key by key and record by record. */
    method ReviewUsedPrompts() returns (message: string)
      requires Valid()
      ensures message == Review(log)
    {
      var order, entries := log.order, log.entries;
      if entries == map[] {
        return NO_USED_PROMPTS;
      }
      ghost var sections := AppendSections(REVIEW_TITLE, order, entries);
      assert sections == Review(log);
      message := REVIEW_TITLE;
      var i := 0;
      while i < |order|
        invariant 0 <= i <= |order|
        invariant AppendSections(message, order[i..], entries) == sections
      {
        var filename := order[i];
        KeyInEntries(log, i);
        var records := entries[filename];
        assert order[i..][0] == filename && order[i..][1..] == order[i + 1..];
        assert AppendSections(message, order[i..], entries)
            == AppendSections(AppendEntries(message + FileHeader(filename), records), order[i + 1..], entries);
        message := message + FileHeader(filename);
        message := AppendRecordEntries(message, records);
        i := i + 1;
      }
      assert order[i..] == [];
    }
  }
}
