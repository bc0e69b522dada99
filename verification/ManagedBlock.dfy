/** Generated blocks inside hand-written files, found by a begin and an end marker. */
module ManagedBlock {
  import opened Results

  datatype Markers = Markers(begin: string, end: string)

  const BEGIN_MARKER := "# <<<< BEGIN AUTO-GENERATED by scripts/legacy_utils.py gen-configs >>>>"
  const END_MARKER := "# <<<< END AUTO-GENERATED >>>>"
  const MARKERS := Markers(BEGIN_MARKER, END_MARKER)

  /** The end marker lies on one line. */
  predicate ValidMarkers(m: Markers) {
    '\n' !in m.end
  }

  datatype BlockError = MissingMarkers | MissingFile

  // ---------------------------------------------------------------- searching

  predicate OccursAt(s: string, pattern: string, i: nat) {
    i + |pattern| <= |s| && forall k :: 0 <= k < |pattern| ==> s[i + k] == pattern[k]
  }

  /** The pattern occurs at `at` and nowhere between `from` and there. */
  predicate FirstAt(s: string, pattern: string, from: nat, at: nat) {
    from <= at && OccursAt(s, pattern, at) && forall i :: from <= i < at ==> !OccursAt(s, pattern, i)
  }

  /** `str.find` with a start index: the first occurrence from there on. */
  function Find(s: string, pattern: string, from: nat): (r: Option<nat>)
    ensures r.Some? ==> FirstAt(s, pattern, from, r.value)
  {
    if at: nat :| at <= |s| && FirstAt(s, pattern, from, at) then Some(at) else None
  }

  lemma FirstIsFound(s: string, pattern: string, from: nat, at: nat)
    requires FirstAt(s, pattern, from, at)
    ensures Find(s, pattern, from) == Some(at)
  {
  }

  /** If the pattern occurs at all from `from` on, it is found. */
  lemma {:induction false} OccurringIsFound(s: string, pattern: string, from: nat, at: nat)
    requires from <= at && OccursAt(s, pattern, at)
    ensures Find(s, pattern, from).Some?
  {
    if i: nat :| from <= i < at && OccursAt(s, pattern, i) {
      OccurringIsFound(s, pattern, from, i);
    } else {
      FirstIsFound(s, pattern, from, at);
    }
  }

  // ---------------------------------------------------------------- replacing

  /** Start of the block, and the end of the line that holds the first end marker after the begin marker. */
  function BlockSpan(m: Markers, content: string): (r: Option<(nat, nat)>)
    ensures r.Some? ==> r.value.0 + |m.begin| <= r.value.1 <= |content|
  {
    var begin := Find(content, m.begin, 0);
    if begin.None? then None
    else
      var end := Find(content, m.end, begin.value + |m.begin|);
      if end.None? then None
      else
        var nl := Find(content, "\n", end.value);
        Some((begin.value, if nl.Some? then nl.value + 1 else |content|))
  }

  /** `replace_managed_block` */
  function Replace(m: Markers, content: string, block: string): Result<string, BlockError> {
    var span := BlockSpan(m, content);
    if span.None? then Err(MissingMarkers)
    else Ok(content[..span.value.0] + block + content[span.value.1..])
  }

  /** Starts with the begin marker; its first end marker after that is on its last line, which is newline-terminated. */
  ghost predicate WellFormed(m: Markers, block: string) {
    && OccursAt(block, m.begin, 0)
    && var end := Find(block, m.end, |m.begin|);
       end.Some? && Find(block, "\n", end.value) == Some(|block| - 1)
  }

  /** Occurrences that lie inside a part of the text are those of the part. */
  lemma InsidePart(text: string, pre: string, part: string, post: string, pattern: string, i: nat)
    requires text == pre + part + post && i + |pattern| <= |part|
    ensures OccursAt(text, pattern, |pre| + i) <==> OccursAt(part, pattern, i)
  {
  }

  /** A search that starts inside a part and succeeds inside it is not affected by what follows. */
  lemma FindInPart(text: string, pre: string, part: string, post: string, pattern: string, from: nat)
    requires text == pre + part + post && Find(part, pattern, from).Some?
    ensures Find(text, pattern, |pre| + from) == Some(|pre| + Find(part, pattern, from).value)
  {
    var at := Find(part, pattern, from).value;
    FirstInPart(text, pre, part, post, pattern, from, at);
    FirstIsFound(text, pattern, |pre| + from, |pre| + at);
  }

  lemma FirstInPart(text: string, pre: string, part: string, post: string, pattern: string, from: nat, at: nat)
    requires text == pre + part + post && FirstAt(part, pattern, from, at)
    ensures FirstAt(text, pattern, |pre| + from, |pre| + at)
  {
    InsidePart(text, pre, part, post, pattern, at);
    forall i: nat | |pre| + from <= i < |pre| + at
      ensures !OccursAt(text, pattern, i)
    {
      InsidePart(text, pre, part, post, pattern, i - |pre|);
    }
  }

  /** No begin marker starts in `pre` when `pre` is followed by one. */
  ghost predicate FirstBegin(m: Markers, pre: string) {
    forall i: nat :: i < |pre| ==> !OccursAt(pre + m.begin, m.begin, i)
  }

  lemma BeginStaysFirst(m: Markers, pre: string, block: string, post: string)
    requires FirstBegin(m, pre) && OccursAt(block, m.begin, 0)
    ensures Find(pre + block + post, m.begin, 0) == Some(|pre|)
  {
    var text := pre + block + post;
    InsidePart(text, pre, block, post, m.begin, 0);
    assert text[..|pre| + |m.begin|] == pre + m.begin;
    forall i: nat | i < |pre|
      ensures !OccursAt(text, m.begin, i)
    {
      assert !OccursAt(pre + m.begin, m.begin, i);
      assert text[i..i + |m.begin|] == (pre + m.begin)[i..i + |m.begin|];
    }
    FirstIsFound(text, m.begin, 0, |pre|);
  }

  /** A well-formed block is found again exactly where it was put. */
  lemma BlockIsFound(m: Markers, pre: string, block: string, post: string)
    requires FirstBegin(m, pre) && WellFormed(m, block)
    ensures BlockSpan(m, pre + block + post) == Some((|pre|, |pre| + |block|))
  {
    var text, end := pre + block + post, Find(block, m.end, |m.begin|).value;
    BeginStaysFirst(m, pre, block, post);
    FindInPart(text, pre, block, post, m.end, |m.begin|);
    FindInPart(text, pre, block, post, "\n", end);
    SpanOf(m, text, |pre|, |pre| + end, |pre| + |block| - 1);
  }

  lemma SpanOf(m: Markers, text: string, begin: nat, end: nat, nl: nat)
    requires Find(text, m.begin, 0) == Some(begin)
    requires Find(text, m.end, begin + |m.begin|) == Some(end)
    requires Find(text, "\n", end) == Some(nl)
    ensures BlockSpan(m, text) == Some((begin, nl + 1))
  {
  }

  lemma BeforeBlock(m: Markers, content: string)
    requires BlockSpan(m, content).Some?
    ensures FirstBegin(m, content[..BlockSpan(m, content).value.0])
  {
    var at := BlockSpan(m, content).value.0;
    var pre := content[..at];
    assert content[..at + |m.begin|] == pre + m.begin;
    forall i: nat | i < |pre|
      ensures !OccursAt(pre + m.begin, m.begin, i)
    {
      assert (pre + m.begin)[i..i + |m.begin|] == content[i..i + |m.begin|];
      assert !OccursAt(content, m.begin, i);
    }
  }

  /** The text before the managed block, and the text after it. */
  function Before(m: Markers, content: string): string
    requires BlockSpan(m, content).Some?
  {
    content[..BlockSpan(m, content).value.0]
  }

  function After(m: Markers, content: string): string
    requires BlockSpan(m, content).Some?
  {
    content[BlockSpan(m, content).value.1..]
  }

  lemma KeepsParts(m: Markers, pre: string, block: string, post: string)
    requires FirstBegin(m, pre) && WellFormed(m, block)
    ensures var out := pre + block + post;
            BlockSpan(m, out).Some? && Before(m, out) == pre && After(m, out) == post
  {
    BlockIsFound(m, pre, block, post);
    Parts(pre, block, post);
  }

  /** Replacing with a well-formed block keeps the text before and after, and leaves exactly that block managed. */
  lemma OutsideIsKept(m: Markers, content: string, block: string)
    requires BlockSpan(m, content).Some? && WellFormed(m, block)
    ensures Replace(m, content, block) == Ok(Before(m, content) + block + After(m, content))
    ensures var out := Replace(m, content, block).value;
            BlockSpan(m, out).Some? && Before(m, out) == Before(m, content) && After(m, out) == After(m, content)
  {
    BeforeBlock(m, content);
    KeepsParts(m, Before(m, content), block, After(m, content));
  }

  lemma Parts(pre: string, block: string, post: string)
    ensures var text := pre + block + post;
            && text[..|pre|] == pre && text[|pre|..|pre| + |block|] == block && text[|pre| + |block|..] == post
  {
  }

  /** A later replacement overrides an earlier one, whatever the later block looks like. */
  lemma SecondOverrides(m: Markers, content: string, first: string, second: string)
    requires BlockSpan(m, content).Some? && WellFormed(m, first)
    ensures Replace(m, Replace(m, content, first).value, second) == Replace(m, content, second)
  {
    OutsideIsKept(m, content, first);
  }

  ghost predicate Idempotent(m: Markers, block: string) {
    forall content :: Replace(m, content, block).Ok? ==>
      Replace(m, Replace(m, content, block).value, block) == Replace(m, content, block)
  }

  function EmptyBlock(m: Markers): string {
    m.begin + m.end + "\n"
  }

  lemma EndsLine(line: string)
    requires '\n' !in line
    ensures Find(line + "\n", "\n", 0) == Some(|line|)
  {
    var text := line + "\n";
    forall i: nat | i < |text|
      ensures OccursAt(text, "\n", i) <==> text[i] == '\n'
    {
      NewlineAt(text, i);
    }
    FirstIsFound(text, "\n", 0, |line|);
  }

  lemma NewlineAt(s: string, i: nat)
    requires i < |s|
    ensures OccursAt(s, "\n", i) <==> s[i] == '\n'
  {
    assert "\n"[0] == '\n';
  }

  lemma EmptyIsWellFormed(m: Markers)
    requires ValidMarkers(m)
    ensures WellFormed(m, EmptyBlock(m))
  {
    var block, tail := EmptyBlock(m), m.end + "\n";
    assert block == m.begin + tail + "";
    EndIsFound(m);
    FindInPart(block, m.begin, tail, "", m.end, 0);
    EndsLine(m.end);
    FindInPart(block, m.begin, tail, "", "\n", 0);
    Begins(m.begin, tail);
    assert block == m.begin + tail;
  }

  lemma Begins(pattern: string, rest: string)
    ensures OccursAt(pattern + rest, pattern, 0)
  {
  }

  lemma EndIsFound(m: Markers)
    ensures Find(m.end + "\n", m.end, 0) == Some(0)
  {
    Begins(m.end, "\n");
    FirstIsFound(m.end + "\n", m.end, 0, 0);
  }

  /** A file that consists of an empty block and some text becomes the new block and that text. */
  lemma FillEmpty(m: Markers, block: string, post: string)
    requires ValidMarkers(m)
    ensures Replace(m, EmptyBlock(m) + post, block) == Ok(block + post)
  {
    EmptyIsWellFormed(m);
    ReplaceFirst(m, EmptyBlock(m), post, block);
  }

  lemma ReplaceFirst(m: Markers, managed: string, post: string, block: string)
    requires WellFormed(m, managed)
    ensures Replace(m, managed + post, block) == Ok(block + post)
  {
    BlockIsFound(m, "", managed, post);
    ReplaceSpan(m, "", managed, post, block);
    assert "" + managed == managed && "" + block == block;
  }

  lemma ReplaceSpan(m: Markers, pre: string, managed: string, post: string, block: string)
    requires BlockSpan(m, pre + managed + post) == Some((|pre|, |pre| + |managed|))
    ensures Replace(m, pre + managed + post, block) == Ok(pre + block + post)
  {
    Parts(pre, managed, post);
  }

  lemma SpanLength(text: string, block: string, from: nat, to: nat)
    requires from <= to <= |text| && text[..from] + block + text[to..] == text
    ensures to == from + |block|
  {
  }

  /** What idempotence says about a file that consists of the block and some text after it. */
  lemma ReplacedAlone(m: Markers, block: string, post: string)
    requires ValidMarkers(m) && Idempotent(m, block)
    ensures BlockSpan(m, block + post).Some?
    ensures var (from, to) := BlockSpan(m, block + post).value; to == from + |block|
  {
    FillEmpty(m, block, post);
    var text := block + post;
    assert Replace(m, text, block) == Ok(text);
    var (from, to) := BlockSpan(m, text).value;
    SpanLength(text, block, from, to);
  }

  /** Repeating a replacement is a no-op on every file with markers exactly when the block is well formed. */
  lemma IdempotentExactly(m: Markers, block: string)
    requires ValidMarkers(m)
    ensures Idempotent(m, block) <==> WellFormed(m, block)
  {
    if WellFormed(m, block) {
      forall content | Replace(m, content, block).Ok?
        ensures Replace(m, Replace(m, content, block).value, block) == Replace(m, content, block)
      {
        SecondOverrides(m, content, block, block);
      }
    }
    if Idempotent(m, block) {
      ReplacedAlone(m, block, "");
      assert block + "" == block;
      ReplacedAlone(m, block, "z");
      LastLineIsTerminated(m, block);
    }
  }

  lemma LastLineIsTerminated(m: Markers, block: string)
    requires ValidMarkers(m) && BlockSpan(m, block) == Some((0, |block|))
    requires BlockSpan(m, block + "z").Some?
    requires BlockSpan(m, block + "z").value.1 == BlockSpan(m, block + "z").value.0 + |block|
    ensures WellFormed(m, block)
  {
    FindInPrefix(block, "z", m.begin, 0);
    FindInPrefix(block, "z", m.end, |m.begin|);
    NewlineInBlock(block, Find(block, m.end, |m.begin|).value);
  }

  lemma FindInPrefix(part: string, post: string, pattern: string, from: nat)
    requires Find(part, pattern, from).Some?
    ensures Find(part + post, pattern, from) == Find(part, pattern, from)
  {
    assert "" + part + post == part + post;
    FindInPart(part + post, "", part, post, pattern, from);
  }

  lemma NewlineInBlock(block: string, end: nat)
    requires end < |block| && Find(block + "z", "\n", end) == Some(|block| - 1)
    ensures Find(block, "\n", end) == Some(|block| - 1)
  {
    var text := block + "z";
    forall i: nat | end <= i < |block|
      ensures OccursAt(block, "\n", i) <==> OccursAt(text, "\n", i)
    {
      NewlineAt(block, i);
      NewlineAt(text, i);
    }
    FirstIsFound(block, "\n", end, |block| - 1);
  }

  lemma MarkersAreValid()
    ensures ValidMarkers(MARKERS)
  {
    EndIsOneLine();
  }

  lemma EndIsOneLine()
    ensures '\n' !in END_MARKER
  {
  }

  // ---------------------------------------------------------------- gen-configs and check-configs

  /** The three rendered templates. */
  datatype Rendered = Rendered(toml: string, pyproject: string, precommit: string)

  /** The files that the generator reads and writes; a missing one is `None`. */
  class Configs {
    var toml: Option<string>
    var pyproject: Option<string>
    var precommit: Option<string>

    /** `do_generate`: all or nothing, and nothing but the managed blocks of the two hand-written files changes. */
    method DoGenerate(r: Rendered) returns (e: Result<(), BlockError>)
      modifies this
      ensures e.Ok? <==>
              && old(pyproject).Some? && Replace(MARKERS, old(pyproject).value, r.pyproject).Ok?
              && old(precommit).Some? && Replace(MARKERS, old(precommit).value, r.precommit).Ok?
      ensures e.Err? ==> toml == old(toml) && pyproject == old(pyproject) && precommit == old(precommit)
      ensures e.Ok? ==>
                && toml == Some(r.toml)
                && pyproject == Some(Replace(MARKERS, old(pyproject).value, r.pyproject).value)
                && precommit == Some(Replace(MARKERS, old(precommit).value, r.precommit).value)
    {
      if pyproject.None? {
        return Err(MissingFile);
      }
      var newPyproject := Replace(MARKERS, pyproject.value, r.pyproject);
      if newPyproject.Err? {
        return Err(newPyproject.error);
      }
      if precommit.None? {
        return Err(MissingFile);
      }
      var newPrecommit := Replace(MARKERS, precommit.value, r.precommit);
      if newPrecommit.Err? {
        return Err(newPrecommit.error);
      }
      toml := Some(r.toml);
      pyproject := Some(newPyproject.value);
      precommit := Some(newPrecommit.value);
      return Ok(());
    }

    /** `do_check`: whether regenerating would change nothing. */
    method DoCheck(r: Rendered) returns (upToDate: Result<bool, BlockError>)
      ensures upToDate.Ok? <==>
              && pyproject.Some? && Replace(MARKERS, pyproject.value, r.pyproject).Ok?
              && precommit.Some? && Replace(MARKERS, precommit.value, r.precommit).Ok?
      ensures upToDate.Ok? ==>
                (upToDate.value <==>
                 && (if toml.Some? then toml.value else "") == r.toml
                 && Replace(MARKERS, pyproject.value, r.pyproject) == Ok(pyproject.value)
                 && Replace(MARKERS, precommit.value, r.precommit) == Ok(precommit.value))
    {
      var stale := false;
      var actual := if toml.Some? then toml.value else "";
      if actual != r.toml {
        stale := true;
      }
      if pyproject.None? {
        return Err(MissingFile);
      }
      var expected := Replace(MARKERS, pyproject.value, r.pyproject);
      if expected.Err? {
        return Err(expected.error);
      }
      if pyproject.value != expected.value {
        stale := true;
      }
      if precommit.None? {
        return Err(MissingFile);
      }
      expected := Replace(MARKERS, precommit.value, r.precommit);
      if expected.Err? {
        return Err(expected.error);
      }
      if precommit.value != expected.value {
        stale := true;
      }
      return Ok(!stale);
    }

    /** Checking right after generating succeeds, for all files that have the markers and all well-formed blocks. */
    method GenerateThenCheck(r: Rendered) returns (e: Result<(), BlockError>, upToDate: Result<bool, BlockError>)
      requires WellFormed(MARKERS, r.pyproject) && WellFormed(MARKERS, r.precommit)
      modifies this
      ensures e.Ok? ==> upToDate == Ok(true)
    {
      ghost var before, before' := pyproject, precommit;
      e := DoGenerate(r);
      if e.Ok? {
        SecondOverrides(MARKERS, before.value, r.pyproject, r.pyproject);
        SecondOverrides(MARKERS, before'.value, r.precommit, r.precommit);
      }
      upToDate := DoCheck(r);
    }
  }
}
