// What a transcript reads like, line by line, in terms of the records' own names and texts.
module MemoryLines {
  import opened MemoryPacking

  // ----- texts -----

  // The texts of a content are determined by these laws: a text is itself, a list is its
  // items one after the other, anything else has none.
  lemma {:induction false} TextPartsLaws(t: string, kind: string, c: Content, a: seq<Content>, b: seq<Content>)
    ensures TextParts(Text(t)) == [t] && TextParts(Other(kind)) == [] && TextParts(Multi([])) == []
    ensures TextParts(Multi([c])) == TextParts(c)
    ensures TextParts(Multi(a + b)) == TextParts(Multi(a)) + TextParts(Multi(b))
  {
    assert [c][1..] == [];
    TextPartsConcat(a, b);
  }

  lemma {:induction false} TextPartsConcat(a: seq<Content>, b: seq<Content>)
    ensures TextPartsOf(a + b) == TextPartsOf(a) + TextPartsOf(b)
    decreases |b|
  {
    if b == [] {
      assert a + b == a;
    } else {
      var init, last := b[..|b| - 1], b[|b| - 1];
      TextPartsConcat(a, init);
      TextPartsPush(a + init, last);
      TextPartsPush(init, last);
      assert a + b == (a + init) + [last] && b == init + [last];
    }
  }

  // ----- lines of a joined text -----

  function Split(s: string): (r: seq<string>)
    ensures r != []
  {
    if s == [] then [""]
    else
      var rest := Split(s[1..]);
      if s[0] == '\n' then [""] + rest else [[s[0]] + rest[0]] + rest[1..]
  }

  function SplitAll(lines: seq<string>): seq<string> {
    if lines == [] then [] else SplitAll(lines[..|lines| - 1]) + Split(lines[|lines| - 1])
  }

  lemma {:induction false} SplitAtNewline(a: string, b: string)
    ensures Split(a + "\n" + b) == Split(a) + Split(b)
  {
    var s := a + "\n" + b;
    if a == [] {
      assert s[1..] == b;
    } else {
      assert s[1..] == a[1..] + "\n" + b;
      SplitAtNewline(a[1..], b);
    }
  }

  lemma {:induction false} SplitOfLine(s: string)
    requires '\n' !in s
    ensures Split(s) == [s]
  {
    if s != [] {
      SplitOfLine(s[1..]);
      assert [s[0]] + s[1..] == s;
    }
  }

  // Split at newlines, what was joined gives back the lines of its parts in order.
  lemma {:induction false} SplitOfJoin(lines: seq<string>)
    requires lines != []
    ensures Split(Join(lines)) == SplitAll(lines)
    decreases |lines|
  {
    var init, last := lines[..|lines| - 1], lines[|lines| - 1];
    if init == [] {
      assert SplitAll(lines) == [] + Split(last);
    } else {
      SplitOfJoin(init);
      SplitAtNewline(Join(init), last);
    }
  }

  // Parts without newlines come back as they are.
  lemma {:induction false} JoinKeepsLines(lines: seq<string>)
    requires lines != [] && forall l | l in lines :: '\n' !in l
    ensures Split(Join(lines)) == lines
  {
    SplitOfJoin(lines);
    SplitAllKeeps(lines);
  }

  lemma {:induction false} SplitAllKeeps(lines: seq<string>)
    requires forall l | l in lines :: '\n' !in l
    ensures SplitAll(lines) == lines
    decreases |lines|
  {
    if lines != [] {
      var init, last := lines[..|lines| - 1], lines[|lines| - 1];
      assert last in lines;
      SplitAllKeeps(init);
      SplitOfLine(last);
      assert init + [last] == lines;
    }
  }

  // ----- records as lines -----

  // The text of a record: its parts, one below the other.
  ghost predicate IsTextOf(m: MessageContent, text: string) { Split(text) == SplitAll(m.content) }

  // Others speak under their name, if they have one; the agent itself without.
  ghost predicate IsLineOf(m: MessageContent, line: string) {
    exists text ::
      IsTextOf(m, text) && line == (if m.isSelf || m.userName == "" then text else m.userName + ": " + text)
  }

  // The lines of some records, in their order, one below the other.
  ghost predicate Reads(ms: seq<MessageContent>, content: string) {
    exists lines :: LinesAre(ms, lines) && Split(content) == SplitAll(lines)
  }

  ghost predicate LinesAre(ms: seq<MessageContent>, lines: seq<string>) {
    |lines| == |ms| && forall j | 0 <= j < |ms| :: IsLineOf(ms[j], lines[j])
  }

  lemma {:induction false} LineIsLine(m: MessageContent)
    requires m.content != []
    ensures IsLineOf(m, LineOf(m))
  {
    SplitOfJoin(m.content);
    assert IsTextOf(m, Join(m.content));
  }

  lemma {:induction false} LinesOfAreLines(ms: seq<MessageContent>)
    requires forall m | m in ms :: m.content != []
    ensures LinesAre(ms, LinesOf(ms))
    decreases |ms|
  {
    if ms != [] {
      LinesOfAreLines(ms[..|ms| - 1]);
      assert ms[|ms| - 1] in ms;
      LineIsLine(ms[|ms| - 1]);
    }
  }

  lemma {:induction false} JoinedReads(ms: seq<MessageContent>)
    requires ms != [] && forall m | m in ms :: m.content != []
    ensures Reads(ms, Join(LinesOf(ms)))
  {
    LinesOfAreLines(ms);
    assert LinesOf(ms) != [];
    SplitOfJoin(LinesOf(ms));
  }

  lemma {:induction false} FromFirstUserKeeps(ms: seq<MessageContent>)
    ensures forall m | m in FromFirstUser(ms) :: m in ms
  {
    FromFirstUserSplits(ms);
    assert forall m | m in FromFirstUser(ms) :: m in LeadingSelf(ms) + FromFirstUser(ms);
  }

  lemma {:induction false} RunsKeep(g: seq<seq<MessageContent>>, i: nat)
    requires i < |g|
    ensures forall m | m in g[i] :: m in Concat(g)
    decreases |g|
  {
    if i < |g| - 1 {
      RunsKeep(g[..|g| - 1], i);
    }
  }

  // Message i of a transcript is spoken by the side of the i-th run of effective records and
  // reads as their lines in order; behind the runs there is at most the empty answer.
  lemma {:induction false} PackedMessageReads(ms: seq<MessageContent>, i: nat)
    requires i < |Runs(Effective(ms))|
    ensures var runs, out := Runs(Effective(ms)), Packed(ms);
      && |out| == (if runs[|runs| - 1][0].isSelf then |runs| else |runs| + 1)
      && (|out| > |runs| ==> out[|runs|] == Assistant(""))
      && (out[i].User? <==> !runs[i][0].isSelf) && Reads(runs[i], out[i].content)
  {
    RunsKeep(Runs(Effective(ms)), i);
    RunsAreMaximal(Effective(ms));
    FromFirstUserKeeps(Textual(ms));
    TextualKeeps(ms);
    JoinedReads(Runs(Effective(ms))[i]);
    ClosedIs(Runs(Effective(ms)), i);
  }

  lemma {:induction false} ClosedIs(g: seq<seq<MessageContent>>, i: nat)
    requires (forall k | 0 <= k < |g| :: g[k] != []) && i < |g|
    ensures var out := Closed(RenderAll(g));
      && |out| == (if g[|g| - 1][0].isSelf then |g| else |g| + 1)
      && (|out| > |g| ==> out[|g|] == Assistant(""))
      && out[i] == Render(g[i])
  {
  }

  // A batch's message reads as the lines of its events that have text, each under its
  // sender's name.
  lemma {:induction false} BatchReads(events: seq<Event>)
    requires Textual(ContentsOf(events)) != []
    ensures forall i | 0 <= i < |events| ::
              var m := ContentsOf(events)[i];
              m.userName == events[i].userName && m.content == TextParts(events[i].content) && !m.isSelf
    ensures Reads(Textual(ContentsOf(events)), Join(LinesOf(Textual(ContentsOf(events)))))
  {
    TextualKeeps(ContentsOf(events));
    JoinedReads(Textual(ContentsOf(events)));
  }
}
