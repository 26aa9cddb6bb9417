/** Whole diff runs after which a change of a function is not looked at again. */
module LostChanges {
  import opened Database
  import opened Paths
  import opened Enqueue
  import opened CParser
  import opened ChangeDetection
  import opened DiffText
  import opened Reading
  import opened Patched
  import opened AutoScan
  import opened AutoDiff

  const FILES := ["a"]
  const KNOWN := CompileDb({"a"}, {})

  /** The product was last looked at when commit `A` was the head. */
  function Before(): Db {
    Db(map[], map[], map[1 := Product(Key("Ulysses", "P"), true, true, None, None, Some("A"))], map[], 1)
  }

  /** Commit `B` has changed the file, as the diff says, and the extractor answers with `source`. */
  function Answers(diff: string, source: Source): Git {
    Git(true, Some("B"), Some([Change("M", "a")]), map["a" := diff], map["a" := source])
  }

  lemma {:induction false} IsTarget()
    ensures Normalize("a") == Some("a") && Targets(FILES) == Some(["a"]) && TargetSet(FILES) == {"a"}
  {
    LetterIsNormal();
    hide Normalize;
    assert FILES[..0] == [] && Targets([]) == Some([]);
    assert [] + ["a"] == ["a"];
  }

  /** A run that reports nothing for the file queues nothing, and moves the base. */
  lemma {:induction false} SilentRun(diff: string, source: Source)
    requires !source.ExtractorFailed? && Reported(Answers(diff, source), Change("M", "a"), "a") == []
    ensures DiffRun(Before(), 1, KNOWN, FILES, Answers(diff, source), 0, map[], [Change("M", "a")],
                    Examined(1, 0, 0), WithBase(Before(), 1, "B"))
    ensures WithBase(Before(), 1, "B").jobs == map[]
  {
    var git, ch := Answers(diff, source), Change("M", "a");
    var w := Work(Before(), map[], 0, 0);
    IsTarget();
    hide Normalize;
    hide Targets;
    hide Reported;
    hide Enqueued;
    NothingExamined(git, {"a"}, w, 1, KNOWN, 0);
    assert ChangeRequests(git, {"a"}, ch) == [];
    assert [ch][..0] == [];
    assert DiffRequests(git, {"a"}, [ch]) == [];
    assert Touched({"a"}, [ch]) == 1;
    assert !ChangeCrashes(git, {"a"}, ch);
    assert Agrees(Before(), 1, map[]);
  }

  // ---- The commit changes the only function of the file ----

  /** The second line of the file, which is the body of its only function, is replaced. */
  function BodyChange(): seq<Hunk> {
    [Hunk(1, ["y}"], ["x}"])]
  }

  /** What git writes for it. */
  function BodyDiff(): string {
    ScriptText(BodyChange(), 0, [Side(2, None, "")])
  }

  lemma {:induction false} FunctionChanges()
    ensures Edits(OLD, BodyChange(), HEAD) && !Verbatim(Lines(OLD), BodyChange(), Lines(HEAD), 1, 2)
    ensures TextRanges(BodyDiff()) == [(2, 2)]
  {
    BothTexts();
    LoneScript(Lines(OLD), BodyChange());
    hide Lines;
    IsPlain();
    ScriptIsReadExactly(BodyChange(), 0, [Side(2, None, "")]);
    LoneRanges(BodyChange());
    hide Ranges;
    hide Diff;
    hide TextRanges;
    assert Shift(BodyChange(), 0, 1) == 0;
    assert Lines(OLD)[0..2][1] == "y}" && Lines(HEAD)[0..2][1] == "x}";
  }

  lemma IsPlain()
    ensures PlainScript(BodyChange(), [Side(2, None, "")])
  {
    assert NoBreak("y}") && NoBreak("x}") && NoBreak("");
  }

  /** The file could not be read: the function changes, no job is queued, and the base moves. */
  lemma {:induction false} UnreadChangeIsLost()
    ensures Edits(OLD, BodyChange(), HEAD) && !Verbatim(Lines(OLD), BodyChange(), Lines(HEAD), 1, 2)
    ensures DiffRun(Before(), 1, KNOWN, FILES, Answers(BodyDiff(), Unreadable), 0, map[], [Change("M", "a")],
                    Examined(1, 0, 0), WithBase(Before(), 1, "B"))
    ensures WithBase(Before(), 1, "B").jobs == map[]
  {
    FunctionChanges();
    NothingFound(Answers(BodyDiff(), Unreadable), Change("M", "a"), "a");
    hide *;
    SilentRun(BodyDiff(), Unreadable);
  }

  /** A patch has put two lines on top of the file in the tree: likewise. */
  lemma {:induction false} PatchedChangeIsLost()
    ensures Edits(OLD, BodyChange(), HEAD) && !Verbatim(Lines(OLD), BodyChange(), Lines(HEAD), 1, 2)
    ensures PATCHED == "\n\n" + HEAD
    ensures DiffRun(Before(), 1, KNOWN, FILES, Answers(BodyDiff(), Spans(ExtractedFromFile(PATCHED))), 0, map[],
                    [Change("M", "a")], Examined(1, 0, 0), WithBase(Before(), 1, "B"))
    ensures WithBase(Before(), 1, "B").jobs == map[]
  {
    var source := Spans(ExtractedFromFile(PATCHED));
    FunctionChanges();
    BothTexts();
    PatchedIsExtracted();
    hide ExtractedFromFile;
    hide TextRanges;
    hide Overlapping;
    LoneIsMissed();
    ReportedOfDiff(Answers(BodyDiff(), source), Change("M", "a"), "a");
    hide *;
    SilentRun(BodyDiff(), source);
  }
}
