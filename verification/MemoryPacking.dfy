// Turning memory records into a transcript: text extraction, the buffered loop, and the
// packing of one batch.
module MemoryPacking {

  datatype Content = Text(text: string) | Multi(items: seq<Content>) | Other(kind: string)

  datatype MessageContent = MessageContent(userName: string, content: seq<string>, isSelf: bool)

  datatype Message = User(content: string) | Assistant(content: string)

  // ----- text extraction -----

  // All texts of a content, left to right, at any depth.
  function TextParts(c: Content): seq<string> {
    match c
    case Text(t) => [t]
    case Multi(items) => TextPartsOf(items)
    case Other(_) => []
  }

  function TextPartsOf(items: seq<Content>): seq<string> {
    if items == [] then [] else TextParts(items[0]) + TextPartsOf(items[1..])
  }

  lemma {:induction false} TextPartsPush(items: seq<Content>, c: Content)
    ensures TextPartsOf(items + [c]) == TextPartsOf(items) + TextParts(c)
  {
    if items == [] {
      assert [c][1..] == [];
    } else {
      assert (items + [c])[1..] == items[1..] + [c];
      TextPartsPush(items[1..], c);
    }
  }

  method CollectTextParts(c: Content, parts: seq<string>) returns (r: seq<string>)
    ensures r == parts + TextParts(c)
  {
    r := parts;
    match c {
      case Text(t) => r := r + [t];
      case Multi(items) =>
        for i := 0 to |items|
          invariant r == parts + TextPartsOf(items[..i])
        {
          assert items[..i + 1] == items[..i] + [items[i]];
          TextPartsPush(items[..i], items[i]);
          r := CollectTextParts(items[i], r);
        }
        assert items[..|items|] == items;
      case Other(_) =>
    }
  }

  function Extracted(userName: string, content: Content, isSelf: nat): MessageContent {
    MessageContent(userName, TextParts(content), isSelf > 0)
  }

  method ExtractContent(userName: string, content: Content, isSelf: nat) returns (r: MessageContent)
    ensures r.userName == userName && r.content == TextParts(content) && (r.isSelf <==> isSelf > 0)
    ensures r == Extracted(userName, content, isSelf)
  {
    var parts := CollectTextParts(content, []);
    r := MessageContent(userName, parts, isSelf > 0);
  }

  // ----- lines -----

  function Join(lines: seq<string>): string {
    if lines == [] then ""
    else if |lines| == 1 then lines[0]
    else Join(lines[..|lines| - 1]) + "\n" + lines[|lines| - 1]
  }

  function UserLine(userName: string, text: string): string {
    if userName == "" then text else userName + ": " + text
  }

  function LineOf(m: MessageContent): string {
    if m.isSelf then Join(m.content) else UserLine(m.userName, Join(m.content))
  }

  function LinesOf(ms: seq<MessageContent>): seq<string> {
    if ms == [] then [] else LinesOf(ms[..|ms| - 1]) + [LineOf(ms[|ms| - 1])]
  }

  // ----- the transcript -----

  // Records that carry text.
  function Textual(ms: seq<MessageContent>): seq<MessageContent> {
    if ms == [] then []
    else
      var rest, m := Textual(ms[..|ms| - 1]), ms[|ms| - 1];
      if m.content == [] then rest else rest + [m]
  }

  function FromFirstUser(ms: seq<MessageContent>): seq<MessageContent> {
    if ms == [] then []
    else
      var rest, m := FromFirstUser(ms[..|ms| - 1]), ms[|ms| - 1];
      if rest == [] && m.isSelf then [] else rest + [m]
  }

  function Effective(ms: seq<MessageContent>): seq<MessageContent> { FromFirstUser(Textual(ms)) }

  // One more record: it joins the last run, or starts one.
  function PushRun(g: seq<seq<MessageContent>>, m: MessageContent): (r: seq<seq<MessageContent>>)
    requires forall i | 0 <= i < |g| :: g[i] != []
    ensures forall i | 0 <= i < |r| :: r[i] != []
  {
    if g == [] || g[|g| - 1][0].isSelf != m.isSelf then g + [[m]]
    else g[..|g| - 1] + [g[|g| - 1] + [m]]
  }

  // The runs of equal isSelf.
  function Runs(ms: seq<MessageContent>): (g: seq<seq<MessageContent>>)
    ensures g == [] <==> ms == []
    ensures forall i | 0 <= i < |g| :: g[i] != []
    decreases |ms|
  {
    if ms == [] then [] else PushRun(Runs(ms[..|ms| - 1]), ms[|ms| - 1])
  }

  function Render(run: seq<MessageContent>): Message
    requires run != []
  {
    if run[0].isSelf then Assistant(Join(LinesOf(run))) else User(Join(LinesOf(run)))
  }

  function RenderAll(runs: seq<seq<MessageContent>>): (out: seq<Message>)
    requires forall i | 0 <= i < |runs| :: runs[i] != []
    ensures |out| == |runs| && forall i | 0 <= i < |runs| :: out[i] == Render(runs[i])
  {
    seq(|runs|, i requires 0 <= i < |runs| => Render(runs[i]))
  }

  function Packed(ms: seq<MessageContent>): seq<Message> {
    Closed(RenderAll(Runs(Effective(ms))))
  }

  // The last word is the assistant's.
  function Closed(out: seq<Message>): seq<Message> {
    if out != [] && out[|out| - 1].User? then out + [Assistant("")] else out
  }

  // ----- what the pieces are -----

  function Concat(g: seq<seq<MessageContent>>): seq<MessageContent> {
    if g == [] then [] else Concat(g[..|g| - 1]) + g[|g| - 1]
  }

  ghost predicate OneSide(run: seq<MessageContent>)
    requires run != []
  {
    forall j | 0 <= j < |run| :: run[j].isSelf == run[0].isSelf
  }

  ghost predicate Alternates(g: seq<seq<MessageContent>>)
    requires forall i | 0 <= i < |g| :: g[i] != []
  {
    (forall i | 0 <= i < |g| :: OneSide(g[i])) && forall i | 0 <= i < |g| - 1 :: g[i][0].isSelf != g[i + 1][0].isSelf
  }

  // Runs cuts the list into stretches of one side each, neighbours on different sides:
  // the maximal ones.
  lemma {:induction false} RunsAreMaximal(ms: seq<MessageContent>)
    ensures Concat(Runs(ms)) == ms && Alternates(Runs(ms))
    decreases |ms|
  {
    if ms != [] {
      var m, init := ms[|ms| - 1], ms[..|ms| - 1];
      RunsAreMaximal(init);
      assert init + [m] == ms;
      RunsPush(Runs(init), m);
    }
  }

  lemma {:induction false} RunsPush(g: seq<seq<MessageContent>>, m: MessageContent)
    requires (forall i | 0 <= i < |g| :: g[i] != []) && Alternates(g)
    ensures Concat(PushRun(g, m)) == Concat(g) + [m] && Alternates(PushRun(g, m))
  {
    if g == [] || g[|g| - 1][0].isSelf != m.isSelf {
      AddRun(g, [m]);
    } else {
      var init, last := g[..|g| - 1], g[|g| - 1];
      assert Concat(init) + (last + [m]) == Concat(g) + [m];
      assert OneSide(last);
      AddRun(init, last + [m]);
    }
  }

  lemma {:induction false} AddRun(g: seq<seq<MessageContent>>, run: seq<MessageContent>)
    requires (forall i | 0 <= i < |g| :: g[i] != []) && Alternates(g)
    requires run != [] && OneSide(run) && (g != [] ==> g[|g| - 1][0].isSelf != run[0].isSelf)
    ensures Concat(g + [run]) == Concat(g) + run && Alternates(g + [run])
  {
    var r := g + [run];
    assert r[..|g|] == g && r[|g|] == run;
    forall i | 0 <= i < |g|
      ensures r[i] == g[i]
    {
    }
  }

  // The self records before the first user's.
  function LeadingSelf(ms: seq<MessageContent>): seq<MessageContent> {
    if FromFirstUser(ms) == [] then ms else LeadingSelf(ms[..|ms| - 1])
  }

  // FromFirstUser drops those and nothing else.
  lemma {:induction false} FromFirstUserSplits(ms: seq<MessageContent>)
    ensures LeadingSelf(ms) + FromFirstUser(ms) == ms
    ensures forall m | m in LeadingSelf(ms) :: m.isSelf
    ensures FromFirstUser(ms) != [] ==> !FromFirstUser(ms)[0].isSelf
  {
    if ms != [] {
      var init := ms[..|ms| - 1];
      FromFirstUserSplits(init);
      assert init + [ms[|ms| - 1]] == ms;
    }
  }

  lemma {:induction false} FromFirstUserStarts(ms: seq<MessageContent>)
    ensures FromFirstUser(ms) == [] <==> forall m | m in ms :: m.isSelf
    ensures FromFirstUser(ms) != [] ==> !FromFirstUser(ms)[0].isSelf
  {
    if ms != [] {
      var init, last := ms[..|ms| - 1], ms[|ms| - 1];
      FromFirstUserStarts(init);
      assert forall m :: m in ms <==> m in init || m == last;
    }
  }

  // The transcript is empty, or it starts with the user, alternates and ends with the assistant.
  lemma {:induction false} PackedAlternates(ms: seq<MessageContent>)
    ensures var out := Packed(ms);
      && (out == [] <==> forall m | m in Textual(ms) :: m.isSelf)
      && (out != [] ==> out[0].User? && out[|out| - 1].Assistant?)
      && (forall i | 0 <= i < |out| - 1 :: out[i].User? != out[i + 1].User?)
  {
    FromFirstUserStarts(Textual(ms));
    RenderAlternates(Effective(ms));
    ClosedAlternates(RenderAll(Runs(Effective(ms))));
  }

  lemma {:induction false} ClosedAlternates(rendered: seq<Message>)
    requires rendered != [] ==> rendered[0].User?
    requires forall i | 0 <= i < |rendered| - 1 :: rendered[i].User? != rendered[i + 1].User?
    ensures var out := Closed(rendered);
      && (out == [] <==> rendered == [])
      && (out != [] ==> out[0].User? && out[|out| - 1].Assistant?)
      && forall i | 0 <= i < |out| - 1 :: out[i].User? != out[i + 1].User?
  {
  }

  lemma {:induction false} RenderAlternates(e: seq<MessageContent>)
    ensures var out := RenderAll(Runs(e));
      && (out == [] <==> e == [])
      && (out != [] ==> out[0].User? == !e[0].isSelf)
      && (forall i | 0 <= i < |out| - 1 :: out[i].User? != out[i + 1].User?)
  {
    RunsAreMaximal(e);
    AlternateRunsRender(Runs(e));
    if e != [] {
      FirstRunStarts(e);
    }
  }

  lemma {:induction false} AlternateRunsRender(g: seq<seq<MessageContent>>)
    requires (forall i | 0 <= i < |g| :: g[i] != []) && Alternates(g)
    ensures var out := RenderAll(g);
      && (out != [] ==> out[0].User? == !g[0][0].isSelf)
      && forall i | 0 <= i < |out| - 1 :: out[i].User? != out[i + 1].User?
  {
  }

  lemma {:induction false} FirstRunStarts(ms: seq<MessageContent>)
    requires ms != []
    ensures Runs(ms)[0][0] == ms[0]
    decreases |ms|
  {
    if |ms| > 1 {
      FirstRunStarts(ms[..|ms| - 1]);
    } else {
      assert ms[..0] == [] && Runs(ms) == [[ms[0]]];
    }
  }

  // ----- the buffered loop -----

  lemma {:induction false} TextualPush(ms: seq<MessageContent>, m: MessageContent)
    ensures Textual(ms + [m]) == if m.content == [] then Textual(ms) else Textual(ms) + [m]
  {
    assert (ms + [m])[..|ms|] == ms;
  }

  lemma {:induction false} FromFirstUserPush(ms: seq<MessageContent>, m: MessageContent)
    ensures FromFirstUser(ms + [m]) == if FromFirstUser(ms) == [] && m.isSelf then [] else FromFirstUser(ms) + [m]
  {
    assert (ms + [m])[..|ms|] == ms;
  }

  // One record seen: it is skipped, or becomes the last effective record.
  lemma {:induction false} EffectivePush(ms: seq<MessageContent>, m: MessageContent)
    ensures Effective(ms + [m]) ==
            if m.content == [] || (Effective(ms) == [] && m.isSelf) then Effective(ms) else Effective(ms) + [m]
  {
    TextualPush(ms, m);
    FromFirstUserPush(Textual(ms), m);
  }

  // The effective records of the first i, taken one by one.
  function EffectiveTo(ms: seq<MessageContent>, i: nat): seq<MessageContent>
    requires i <= |ms|
  {
    if i == 0 then []
    else
      var e, m := EffectiveTo(ms, i - 1), ms[i - 1];
      if m.content == [] || (e == [] && m.isSelf) then e else e + [m]
  }

  lemma {:induction false} EffectiveToIs(ms: seq<MessageContent>, i: nat)
    requires i <= |ms|
    ensures EffectiveTo(ms, i) == Effective(ms[..i])
  {
    if i > 0 {
      EffectiveToIs(ms, i - 1);
      assert ms[..i] == ms[..i - 1] + [ms[i - 1]];
      EffectivePush(ms[..i - 1], ms[i - 1]);
    }
  }

  // What the loop holds: all runs but the last are out, the last one is in its buffer.
  datatype Buffers = Buffers(
    out: seq<Message>, started: bool, isAsst: bool, userBuf: seq<string>, asstBuf: seq<string>) {

    // The message the buffers make.
    function Flushed(): Message {
      if isAsst then Assistant(Join(asstBuf)) else User(Join(userBuf))
    }
  }

  function BuffersOf(e: seq<MessageContent>): (b: Buffers)
    ensures b.started <==> e != []
  {
    if e == [] then Buffers([], false, false, [], [])
    else
      var g := Runs(e);
      var last := g[|g| - 1];
      var lines, isAsst := LinesOf(last), last[0].isSelf;
      Buffers(RenderAll(g[..|g| - 1]), true, isAsst, if isAsst then [] else lines, if isAsst then lines else [])
  }

  lemma {:induction false} RenderLast(g: seq<seq<MessageContent>>)
    requires (forall i | 0 <= i < |g| :: g[i] != []) && g != []
    ensures RenderAll(g) == RenderAll(g[..|g| - 1]) + [Render(g[|g| - 1])]
  {
  }

  lemma {:induction false} LinesPush(run: seq<MessageContent>, m: MessageContent)
    ensures LinesOf(run + [m]) == LinesOf(run) + [LineOf(m)]
  {
    assert (run + [m])[..|run|] == run;
  }

  lemma {:induction false} RunsSnoc(e: seq<MessageContent>, m: MessageContent)
    ensures Runs(e + [m]) == PushRun(Runs(e), m)
  {
    assert (e + [m])[..|e|] == e;
  }

  lemma {:induction false} FlushedIsRendered(e: seq<MessageContent>)
    requires e != []
    ensures BuffersOf(e).out + [BuffersOf(e).Flushed()] == RenderAll(Runs(e))
  {
    var g := Runs(e);
    RenderLast(g);
  }

  lemma {:induction false} FlushCloses(e: seq<MessageContent>)
    requires e != []
    ensures var b := BuffersOf(e);
            Closed(RenderAll(Runs(e))) ==
            b.out + if b.isAsst then [Assistant(Join(b.asstBuf))] else [User(Join(b.userBuf)), Assistant("")]
  {
    FlushedIsRendered(e);
    var b := BuffersOf(e);
    assert !b.isAsst ==> b.out + [User(Join(b.userBuf)), Assistant("")] == (b.out + [b.Flushed()]) + [Assistant("")];
  }

  lemma {:induction false} PushFirst(m: MessageContent)
    requires !m.isSelf
    ensures BuffersOf([m]) == Buffers([], true, false, [LineOf(m)], [])
  {
    RunsSnoc([], m);
    LinesPush([], m);
    assert [] + [m] == [m];
  }

  lemma {:induction false} PushSame(e: seq<MessageContent>, m: MessageContent)
    requires e != [] && BuffersOf(e).isAsst == m.isSelf
    ensures BuffersOf(e + [m]) == if m.isSelf then BuffersOf(e).(asstBuf := BuffersOf(e).asstBuf + [LineOf(m)])
                                  else BuffersOf(e).(userBuf := BuffersOf(e).userBuf + [LineOf(m)])
  {
    RunsSnoc(e, m);
    var g, r := Runs(e), Runs(e + [m]);
    LinesPush(g[|g| - 1], m);
    assert r[..|r| - 1] == g[..|g| - 1];
  }

  lemma {:induction false} PushSwitch(e: seq<MessageContent>, m: MessageContent)
    requires e != [] && BuffersOf(e).isAsst != m.isSelf
    ensures BuffersOf(e + [m]) == Buffers(BuffersOf(e).out + [BuffersOf(e).Flushed()], true, m.isSelf,
                                          if m.isSelf then [] else [LineOf(m)], if m.isSelf then [LineOf(m)] else [])
  {
    RunsSnoc(e, m);
    FlushedIsRendered(e);
    var g, r := Runs(e), Runs(e + [m]);
    assert r[..|r| - 1] == g;
    LinesPush([], m);
    assert [] + [m] == [m];
  }

  lemma {:induction false} PackedIsClosed(ms: seq<MessageContent>)
    ensures Packed(ms) == Closed(RenderAll(Runs(EffectiveTo(ms, |ms|))))
  {
    EffectiveToIs(ms, |ms|);
    assert ms[..|ms|] == ms;
  }

  method PackMemoryMessages(msgs: seq<MessageContent>) returns (out: seq<Message>)
    ensures out == Packed(msgs)
  {
    out := [];
    var userBuf: seq<string> := [];
    var asstBuf: seq<string> := [];
    var isAsst, started := false, false;
    ghost var e: seq<MessageContent> := [];
    for i := 0 to |msgs|
      invariant e == EffectiveTo(msgs, i)
      invariant Buffers(out, started, isAsst, userBuf, asstBuf) == BuffersOf(e)
    {
      var m := msgs[i];
      if m.content == [] || (!started && m.isSelf) {
        continue;
      }
      if !started {
        PushFirst(m);
        assert e + [m] == [m];
      } else if m.isSelf == isAsst {
        PushSame(e, m);
      } else {
        PushSwitch(e, m);
      }
      e := e + [m];
      if !started {
        started := true;
        isAsst := false;
      }
      if m.isSelf != isAsst {
        out := out + [if isAsst then Assistant(Join(asstBuf)) else User(Join(userBuf))];
        userBuf, asstBuf := [], [];
        isAsst := m.isSelf;
      }
      var text := Join(m.content);
      if m.isSelf {
        asstBuf := asstBuf + [text];
      } else {
        userBuf := userBuf + [UserLine(m.userName, text)];
      }
    }
    PackedIsClosed(msgs);
    if started {
      FlushCloses(e);
      if isAsst {
        out := out + [Assistant(Join(asstBuf))];
      } else {
        out := out + [User(Join(userBuf)), Assistant("")];
      }
    }
  }

  // ----- one batch -----

  datatype Event = Event(userName: string, content: Content)

  function ContentOf(e: Event): MessageContent { Extracted(e.userName, e.content, 0) }

  function ContentsOf(events: seq<Event>): (r: seq<MessageContent>)
    ensures |r| == |events| && forall i | 0 <= i < |events| :: r[i] == ContentOf(events[i])
  {
    seq(|events|, i requires 0 <= i < |events| => ContentOf(events[i]))
  }

  method PackBatch(events: seq<Event>) returns (r: Message)
    ensures r == User(Join(LinesOf(Textual(ContentsOf(events)))))
  {
    var lines: seq<string> := [];
    for i := 0 to |events|
      invariant lines == LinesOf(Textual(ContentsOf(events[..i])))
    {
      var mc := ExtractContent(events[i].userName, events[i].content, 0);
      assert ContentsOf(events[..i + 1]) == ContentsOf(events[..i]) + [mc];
      TextualPush(ContentsOf(events[..i]), mc);
      ghost var t := Textual(ContentsOf(events[..i]));
      if mc.content == [] {
        continue;
      }
      assert (t + [mc])[..|t|] == t;
      lines := lines + [UserLine(mc.userName, Join(mc.content))];
    }
    assert events[..|events|] == events;
    r := User(Join(lines));
  }

  // Records nobody of which is self make one user message, the one a batch would be
  // packed into, and the empty answer.
  lemma {:induction false} OthersPackLikeABatch(ms: seq<MessageContent>)
    requires (forall m | m in ms :: !m.isSelf) && Textual(ms) != []
    ensures Packed(ms) == [User(Join(LinesOf(Textual(ms)))), Assistant("")]
  {
    TextualKeeps(ms);
    NoLeadingSelf(Textual(ms));
    OneRunCloses(Textual(ms));
  }

  lemma {:induction false} NoLeadingSelf(t: seq<MessageContent>)
    requires forall m | m in t :: !m.isSelf
    ensures FromFirstUser(t) == t
  {
    if t != [] {
      NoLeadingSelf(t[..|t| - 1]);
    }
  }

  lemma {:induction false} OneRunCloses(t: seq<MessageContent>)
    requires t != [] && forall m | m in t :: !m.isSelf
    ensures Closed(RenderAll(Runs(t))) == [User(Join(LinesOf(t))), Assistant("")]
  {
    assert t[0] in t;
    OneRun(t);
    RenderOne(t);
    CloseUser(Render(t));
  }

  lemma {:induction false} RenderOne(run: seq<MessageContent>)
    requires run != []
    ensures RenderAll([run]) == [Render(run)]
  {
  }

  lemma {:induction false} CloseUser(m: Message)
    requires m.User?
    ensures Closed([m]) == [m, Assistant("")]
  {
  }

  lemma {:induction false} TextualKeeps(ms: seq<MessageContent>)
    ensures forall m | m in Textual(ms) :: m in ms && m.content != []
  {
    if ms != [] {
      TextualKeeps(ms[..|ms| - 1]);
    }
  }

  lemma {:induction false} OneRun(ms: seq<MessageContent>)
    requires ms != [] && forall m | m in ms :: !m.isSelf
    ensures Runs(ms) == [ms]
    decreases |ms|
  {
    var init := ms[..|ms| - 1];
    assert init + [ms[|ms| - 1]] == ms;
    if init != [] {
      OneRun(init);
    }
  }
}
