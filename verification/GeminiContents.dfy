/** `_to_gemini_contents` of agent/adapters/gemini_adapter.py: a message list and a system text become strictly
alternating user and model turns, with every group of system texts in a turn of its own.

`ToGeminiContents` is the three passes of the source. `Contract` is an independent description of what they produce:
a list of pieces, each saying where the text of one turn comes from. */
module GeminiContents {
  import opened Common

  // A dictionary with optional "role" and "content".
  datatype Message = Message(role: Option<string>, content: Option<string>)

  datatype Event = Sys(text: string) | Said(role: string, content: string)

  datatype Role = User | Model

  datatype Item = Prelude(text: string) | Real(role: Role, content: string)

  datatype Turn = Turn(role: Role, text: string)

  // ----- Steps 1 and 2: events, and grouped preludes -----

  function EventOf(m: Message): Event {
    var role := m.role.GetOr("user");
    var content := m.content.GetOr("");
    if role == "system" then Sys(content) else Said(role, content)
  }

  function EventsOf(messages: seq<Message>, system: Option<string>): seq<Event> {
    (if system.Some? && system.value != "" then [Sys(system.value)] else []) +
    seq(|messages|, i requires 0 <= i < |messages| => EventOf(messages[i]))
  }

  function GeminiRole(role: string): Role {
    if role == "assistant" || role == "model" then Model else User
  }

  function Instruction(text: string): string {
    "System instruction:\n" + text
  }

  // "\n".join over the pending system texts
  function Preamble(texts: seq<string>): (p: string)
    requires texts != []
    ensures p != ""
  {
    if |texts| == 1 then Instruction(texts[0])
    else Preamble(texts[..|texts| - 1]) + "\n" + Instruction(texts[|texts| - 1])
  }

  function Flush(pending: seq<string>): seq<Item> {
    if pending == [] then [] else [Prelude(Preamble(pending))]
  }

  // The grouping of the events from here on, when `pending` system texts are waiting.
  function Grouped(events: seq<Event>, pending: seq<string>): seq<Item>
    decreases |events|
  {
    if events == [] then Flush(pending)
    else
      match events[0]
      case Sys(text) => Grouped(events[1..], pending + [text])
      case Said(role, content) => Flush(pending) + [Real(GeminiRole(role), content)] + Grouped(events[1..], [])
  }

  lemma GroupedStep(done: seq<Item>, events: seq<Event>, pending: seq<string>)
    requires events != []
    ensures events[0].Sys? ==>
              done + Grouped(events, pending) == done + Grouped(events[1..], pending + [events[0].text])
    ensures events[0].Said? ==>
              done + Grouped(events, pending) ==
              (done + Flush(pending) + [Real(GeminiRole(events[0].role), events[0].content)]) + Grouped(events[1..], [])
  {
    if events[0].Said? {
      Regroup(done, Flush(pending), [Real(GeminiRole(events[0].role), events[0].content)], Grouped(events[1..], []));
    }
  }

  lemma Regroup<T>(a: seq<T>, b: seq<T>, c: seq<T>, d: seq<T>)
    ensures a + (b + c + d) == (a + b + c) + d
  {
  }

  method Group(events: seq<Event>) returns (cleaned: seq<Item>)
    ensures cleaned == Grouped(events, [])
  {
    cleaned := [];
    var pending: seq<string> := [];
    for i := 0 to |events|
      invariant Grouped(events, []) == cleaned + Grouped(events[i..], pending)
    {
      var rest := events[i..];
      assert rest[1..] == events[i + 1..];
      GroupedStep(cleaned, rest, pending);
      match events[i]
      case Sys(text) => pending := pending + [text];
      case Said(role, content) =>
        cleaned := cleaned + Flush(pending);
        pending := [];
        cleaned := cleaned + [Real(GeminiRole(role), content)];
    }
    cleaned := cleaned + Flush(pending);
  }

  // No two preludes are next to each other.
  predicate WellGrouped(items: seq<Item>) {
    forall i :: 0 <= i < |items| - 1 ==> !(items[i].Prelude? && items[i + 1].Prelude?)
  }

  lemma {:induction false} GroupedIsWellGrouped(events: seq<Event>, pending: seq<string>)
    ensures WellGrouped(Grouped(events, pending))
    ensures pending == [] && events != [] && events[0].Said? ==> Grouped(events, pending)[0].Real?
    decreases |events|
  {
    if events != [] {
      match events[0]
      case Sys(text) => GroupedIsWellGrouped(events[1..], pending + [text]);
      case Said(role, content) => GroupedIsWellGrouped(events[1..], []);
    }
  }

  // ----- Step 3: turns -----

  const ACK := "Understood."

  // append_turn: merge into the last turn when the role repeats.
  function Joined(before: string, text: string): string {
    before + (if before == "" then "" else "\n") + text
  }

  function AppendTurn(out: seq<Turn>, role: Role, text: string): seq<Turn> {
    if out != [] && out[|out| - 1].role == role
    then out[..|out| - 1] + [Turn(role, Joined(out[|out| - 1].text, text))]
    else out + [Turn(role, text)]
  }

  // The role of the first real item at or after `i`.
  function NextReal(items: seq<Item>, i: nat): Option<Role>
    decreases |items| - i
  {
    if i >= |items| then None
    else if items[i].Real? then Some(items[i].role)
    else NextReal(items, i + 1)
  }

  function LastRole(out: seq<Turn>): Option<Role> {
    if out == [] then None else Some(out[|out| - 1].role)
  }

  // ----- What the turns are made of -----

  // The origin of one turn: the prelude's own text, the synthetic acknowledgement, the synthetic empty first turn,
  // or a stretch of real messages of one role.
  datatype Piece = Preluded(text: string) | Acknowledged | Padded | Spoken(role: Role, contents: seq<string>)

  function Merged(contents: seq<string>): string
    requires contents != []
  {
    if |contents| == 1 then contents[0]
    else Joined(Merged(contents[..|contents| - 1]), contents[|contents| - 1])
  }

  predicate ValidPiece(p: Piece) {
    p.Spoken? ==> p.contents != []
  }

  function Render(p: Piece): Turn
    requires ValidPiece(p)
  {
    match p
    case Preluded(text) => Turn(User, text)
    case Acknowledged => Turn(Model, ACK)
    case Padded => Turn(User, "")
    case Spoken(role, contents) => Turn(role, Merged(contents))
  }

  // The items a piece accounts for; the synthetic turns account for none.
  function ItemsOf(p: Piece): seq<Item> {
    match p
    case Preluded(text) => [Prelude(text)]
    case Acknowledged => []
    case Padded => []
    case Spoken(role, contents) => seq(|contents|, i requires 0 <= i < |contents| => Real(role, contents[i]))
  }

  function AllItems(pieces: seq<Piece>): seq<Item> {
    if pieces == [] then [] else AllItems(pieces[..|pieces| - 1]) + ItemsOf(pieces[|pieces| - 1])
  }

  function RoleOf(p: Piece): Role {
    match p
    case Preluded(_) => User
    case Acknowledged => Model
    case Padded => User
    case Spoken(role, _) => role
  }

  // Each piece is one turn.
  predicate Renders(pieces: seq<Piece>, out: seq<Turn>) {
    |pieces| == |out| && forall i :: 0 <= i < |pieces| ==> ValidPiece(pieces[i]) && out[i] == Render(pieces[i])
  }

  // User first, then model and user in turn.
  predicate Alternates(pieces: seq<Piece>) {
    && (pieces != [] ==> RoleOf(pieces[0]) == User)
    && (forall i :: 0 <= i < |pieces| - 1 ==> RoleOf(pieces[i]) != RoleOf(pieces[i + 1]))
  }

  // Synthetic turns only where alternation needs them: an acknowledgement beside a prelude, the empty turn before a
  // leading model turn.
  predicate JustifiedAt(pieces: seq<Piece>, i: nat)
    requires i < |pieces|
  {
    match pieces[i]
    case Acknowledged => i > 0 && (pieces[i - 1].Preluded? || (i + 1 < |pieces| && pieces[i + 1].Preluded?))
    case Padded => i == 0 && |pieces| > 1 && pieces[1].Spoken?
    case _ => ValidPiece(pieces[i])
  }

  predicate Justified(pieces: seq<Piece>) {
    forall i :: 0 <= i < |pieces| ==> JustifiedAt(pieces, i)
  }

  predicate EndsInAck(pieces: seq<Piece>) {
    pieces != [] && pieces[|pieces| - 1].Acknowledged?
  }

  predicate Standalone(items: seq<Item>) {
    |items| == 1 && items[0].Prelude?
  }

  // The written contract, on pieces: every item once and in order, nothing merged with a prelude, strict alternation,
  // no needless synthetic turn, and a closing acknowledgement only for a prelude that stands alone.
  predicate Contract(pieces: seq<Piece>, items: seq<Item>) {
    && AllItems(pieces) == items
    && Alternates(pieces)
    && Justified(pieces)
    && (EndsInAck(pieces) <==> Standalone(items))
  }

  // The turns are those of some pieces under the contract.
  ghost predicate MeetsContract(out: seq<Turn>, items: seq<Item>) {
    exists pieces :: Renders(pieces, out) && Contract(pieces, items)
  }

  // ----- The third pass -----

  // What holds before item `i` is processed: the last piece shows what the previous item was.
  predicate Pending(pieces: seq<Piece>, items: seq<Item>, i: nat)
    requires i <= |items|
  {
    if i == 0 then pieces == []
    else
      && pieces != []
      && var last := pieces[|pieces| - 1];
      match items[i - 1]
      case Real(role, _) => last.Spoken? && last.role == role
      case Prelude(_) =>
        if (i < |items| && items[i].Real? && items[i].role == User) || Standalone(items)
        then |pieces| > 1 && last.Acknowledged? && pieces[|pieces| - 2].Preluded?
        else last.Preluded?
  }

  lemma AllItemsOfMore(pieces: seq<Piece>, p: Piece)
    ensures AllItems(pieces + [p]) == AllItems(pieces) + ItemsOf(p)
  {
    assert (pieces + [p])[..|pieces|] == pieces;
  }

  lemma AllItemsOfOne(p: Piece)
    ensures AllItems([p]) == ItemsOf(p)
  {
    AllItemsOfMore([], p);
    assert [] + [p] == [p];
  }

  // Appending a turn of the other role is appending a piece.
  predicate CanPush(pieces: seq<Piece>, out: seq<Turn>, p: Piece) {
    && Renders(pieces, out) && Alternates(pieces) && ValidPiece(p)
    && (if pieces == [] then RoleOf(p) == User else RoleOf(pieces[|pieces| - 1]) != RoleOf(p))
  }

  lemma PushPiece(pieces: seq<Piece>, out: seq<Turn>, p: Piece)
    requires CanPush(pieces, out, p)
    ensures Renders(pieces + [p], AppendTurn(out, Render(p).role, Render(p).text))
    ensures Alternates(pieces + [p])
  {
    if out != [] {
      var n := |out| - 1;
      assert out[n] == Render(pieces[n]) && out[n].role == RoleOf(pieces[n]);
    }
    assert AppendTurn(out, Render(p).role, Render(p).text) == out + [Render(p)];
    PushAlternates(pieces, p);
  }

  lemma PushAlternates(pieces: seq<Piece>, p: Piece)
    requires Alternates(pieces)
    requires if pieces == [] then RoleOf(p) == User else RoleOf(pieces[|pieces| - 1]) != RoleOf(p)
    ensures Alternates(pieces + [p])
  {
  }

  lemma JustifiedGrows(pieces: seq<Piece>, more: seq<Piece>)
    requires Justified(pieces)
    requires forall i :: |pieces| <= i < |pieces| + |more| ==> JustifiedAt(pieces + more, i)
    ensures Justified(pieces + more)
  {
    forall i | 0 <= i < |pieces| ensures JustifiedAt(pieces + more, i) {
      assert JustifiedAt(pieces, i);
    }
  }

  lemma MergePiece(pieces: seq<Piece>, out: seq<Turn>, role: Role, contents: seq<string>, content: string)
    requires Renders(pieces, out) && Alternates(pieces) && Justified(pieces)
    requires pieces != [] && pieces[|pieces| - 1] == Spoken(role, contents)
    ensures
      var pieces' := pieces[..|pieces| - 1] + [Spoken(role, contents + [content])];
      && Renders(pieces', AppendTurn(out, role, content)) && Alternates(pieces') && Justified(pieces')
      && AllItems(pieces') == AllItems(pieces) + [Real(role, content)]
  {
    var n := |pieces| - 1;
    var p := Spoken(role, contents + [content]);
    assert JustifiedAt(pieces, n);
    MergedIsRendered(pieces, out, role, contents, content);
    MergedIsJustified(pieces, p);
    MergedAlternates(pieces, p);
    assert pieces[..n] + [Spoken(role, contents)] == pieces;
    MergedItems(pieces[..n], role, contents, content);
  }

  lemma MergedAlternates(pieces: seq<Piece>, p: Piece)
    requires Alternates(pieces) && pieces != [] && RoleOf(p) == RoleOf(pieces[|pieces| - 1])
    ensures Alternates(pieces[..|pieces| - 1] + [p])
  {
    var merged := pieces[..|pieces| - 1] + [p];
    assert forall i :: 0 <= i < |pieces| ==> RoleOf(merged[i]) == RoleOf(pieces[i]);
  }

  lemma MergedIsRendered(pieces: seq<Piece>, out: seq<Turn>, role: Role, contents: seq<string>, content: string)
    requires Renders(pieces, out) && pieces != [] && contents != [] && pieces[|pieces| - 1] == Spoken(role, contents)
    ensures Renders(pieces[..|pieces| - 1] + [Spoken(role, contents + [content])], AppendTurn(out, role, content))
  {
    var n := |pieces| - 1;
    assert out[n] == Render(pieces[n]);
    assert (contents + [content])[..|contents|] == contents;
    assert AppendTurn(out, role, content) == out[..n] + [Render(Spoken(role, contents + [content]))];
  }

  lemma MergedItems(front: seq<Piece>, role: Role, contents: seq<string>, content: string)
    ensures AllItems(front + [Spoken(role, contents + [content])])
            == AllItems(front + [Spoken(role, contents)]) + [Real(role, content)]
  {
    var before, after := Spoken(role, contents), Spoken(role, contents + [content]);
    AllItemsOfMore(front, before);
    AllItemsOfMore(front, after);
    OneMoreItem(role, contents, content);
    Glue(AllItems(front), ItemsOf(before), [Real(role, content)], AllItems(front + [before]), ItemsOf(after),
         AllItems(front + [before]) + [Real(role, content)]);
  }

  lemma OneMoreItem(role: Role, contents: seq<string>, content: string)
    ensures ItemsOf(Spoken(role, contents + [content])) == ItemsOf(Spoken(role, contents)) + [Real(role, content)]
  {
  }

  lemma MergedIsJustified(pieces: seq<Piece>, p: Piece)
    requires Justified(pieces) && pieces != [] && pieces[|pieces| - 1].Spoken? && p.Spoken? && ValidPiece(p)
    ensures Justified(pieces[..|pieces| - 1] + [p])
  {
    var pieces' := pieces[..|pieces| - 1] + [p];
    forall i | 0 <= i < |pieces'| ensures JustifiedAt(pieces', i) {
      assert JustifiedAt(pieces, i);
    }
  }

  // The state of the third pass between two items.
  predicate Consistent(pieces: seq<Piece>, out: seq<Turn>, items: seq<Item>, i: nat)
    requires i <= |items|
  {
    Pending(pieces, items, i) && AllItems(pieces) == items[..i] &&
    Renders(pieces, out) && Alternates(pieces) && Justified(pieces)
  }

  // The turns a prelude adds, whichever of the three branches it takes.
  function ToldTurns(out: seq<Turn>, preamble: string): seq<Turn> {
    AppendTurn(if LastRole(out) == Some(User) then AppendTurn(out, Model, ACK) else out, User, preamble)
  }

  function PreludeTurns(out: seq<Turn>, preamble: string, next: Option<Role>): seq<Turn> {
    if next == Some(User) || (next.None? && LastRole(out).None?)
    then AppendTurn(ToldTurns(out, preamble), Model, ACK)
    else ToldTurns(out, preamble)
  }

  function ToldPieces(pieces: seq<Piece>, preamble: string, last: Option<Role>): seq<Piece> {
    (if last == Some(User) then pieces + [Acknowledged] else pieces) + [Preluded(preamble)]
  }

  function PreludePieces(pieces: seq<Piece>, preamble: string, last: Option<Role>, next: Option<Role>): seq<Piece> {
    if next == Some(User) || (next.None? && last.None?)
    then ToldPieces(pieces, preamble, last) + [Acknowledged]
    else ToldPieces(pieces, preamble, last)
  }

  lemma ToldTurnsAreRendered(pieces: seq<Piece>, out: seq<Turn>, preamble: string)
    requires Renders(pieces, out) && Alternates(pieces)
    ensures Renders(ToldPieces(pieces, preamble, LastRole(out)), ToldTurns(out, preamble))
    ensures Alternates(ToldPieces(pieces, preamble, LastRole(out)))
    ensures AllItems(ToldPieces(pieces, preamble, LastRole(out))) == AllItems(pieces) + [Prelude(preamble)]
  {
    if out != [] { assert out[|out| - 1] == Render(pieces[|out| - 1]); }
    if LastRole(out) == Some(User) {
      PushPiece(pieces, out, Acknowledged);
      AllItemsOfMore(pieces, Acknowledged);
      PushPiece(pieces + [Acknowledged], AppendTurn(out, Model, ACK), Preluded(preamble));
      AllItemsOfMore(pieces + [Acknowledged], Preluded(preamble));
    } else {
      PushPiece(pieces, out, Preluded(preamble));
      AllItemsOfMore(pieces, Preluded(preamble));
    }
  }

  lemma {:induction false} PreludeTurnsAreRendered(pieces: seq<Piece>, out: seq<Turn>, preamble: string, next: Option<Role>)
    requires Renders(pieces, out) && Alternates(pieces)
    ensures Renders(PreludePieces(pieces, preamble, LastRole(out), next), PreludeTurns(out, preamble, next))
    ensures Alternates(PreludePieces(pieces, preamble, LastRole(out), next))
    ensures AllItems(PreludePieces(pieces, preamble, LastRole(out), next)) == AllItems(pieces) + [Prelude(preamble)]
  {
    ToldTurnsAreRendered(pieces, out, preamble);
    if next == Some(User) || (next.None? && LastRole(out).None?) {
      PushPiece(ToldPieces(pieces, preamble, LastRole(out)), ToldTurns(out, preamble), Acknowledged);
      AllItemsOfMore(ToldPieces(pieces, preamble, LastRole(out)), Acknowledged);
    }
  }

  lemma PreludePiecesAreJustified(pieces: seq<Piece>, preamble: string, last: Option<Role>, next: Option<Role>)
    requires Justified(pieces) && (last.Some? ==> pieces != [])
    ensures Justified(PreludePieces(pieces, preamble, last, next))
  {
    var told := ToldPieces(pieces, preamble, last);
    if last == Some(User) {
      assert told == pieces + [Acknowledged, Preluded(preamble)];
      JustifiedGrows(pieces, [Acknowledged, Preluded(preamble)]);
    } else {
      JustifiedGrows(pieces, [Preluded(preamble)]);
    }
    JustifiedGrows(told, [Acknowledged]);
  }

  lemma PreludeIsPending(pieces: seq<Piece>, items: seq<Item>, i: nat, last: Option<Role>, next: Option<Role>)
    requires i < |items| && items[i].Prelude? && (last.None? <==> i == 0)
    requires next == if i + 1 < |items| && items[i + 1].Real? then Some(items[i + 1].role) else None
    requires i + 1 < |items| ==> items[i + 1].Real?
    ensures Pending(PreludePieces(pieces, items[i].text, last, next), items, i + 1)
  {
  }

  lemma {:induction false} PreludeStep(pieces: seq<Piece>, out: seq<Turn>, items: seq<Item>, i: nat) returns (pieces': seq<Piece>)
    requires WellGrouped(items) && i < |items| && items[i].Prelude? && Consistent(pieces, out, items, i)
    ensures Consistent(pieces', PreludeTurns(out, items[i].text, NextReal(items, i + 1)), items, i + 1)
  {
    var preamble, last, next := items[i].text, LastRole(out), NextReal(items, i + 1);
    assert items[..i + 1] == items[..i] + [Prelude(preamble)];
    assert last.None? <==> i == 0;
    PreludeIsPending(pieces, items, i, last, next);
    PreludeTurnsAreRendered(pieces, out, preamble, next);
    PreludePiecesAreJustified(pieces, preamble, last, next);
    pieces' := PreludePieces(pieces, preamble, last, next);
  }

  // The turns a real item adds.
  function RealTurns(out: seq<Turn>, role: Role, content: string): seq<Turn> {
    AppendTurn(if out == [] && role != User then AppendTurn(out, User, "") else out, role, content)
  }

  lemma LeadingItems(p: Piece)
    ensures AllItems([Padded, p]) == ItemsOf(p)
  {
    AllItemsOfOne(Padded);
    AllItemsOfMore([Padded], p);
    assert [Padded] + [p] == [Padded, p];
  }

  lemma LeadingTurns(p: Piece, content: string)
    requires p == Spoken(Model, [content])
    ensures Renders([Padded, p], RealTurns([], Model, content)) && Alternates([Padded, p])
  {
    var out := RealTurns([], Model, content);
    assert out == [Turn(User, ""), Turn(Model, content)];
    RendersTwo(Padded, p, out);
  }

  lemma RendersTwo(p: Piece, q: Piece, out: seq<Turn>)
    requires ValidPiece(p) && ValidPiece(q) && |out| == 2 && out[0] == Render(p) && out[1] == Render(q)
    ensures Renders([p, q], out)
  {
  }

  lemma LeadingModelStep(items: seq<Item>)
    requires items != [] && items[0].Real? && items[0].role == Model
    ensures Consistent([Padded, Spoken(Model, [items[0].content])], RealTurns([], Model, items[0].content), items, 1)
  {
    var p := Spoken(Model, [items[0].content]);
    LeadingItems(p);
    LeadingTurns(p, items[0].content);
    assert ItemsOf(p) == [items[0]] == items[..1];
  }

  lemma NewSpokenStep(pieces: seq<Piece>, out: seq<Turn>, items: seq<Item>, i: nat)
    requires i < |items| && items[i].Real? && Consistent(pieces, out, items, i)
    requires CanPush(pieces, out, Spoken(items[i].role, [items[i].content]))
    ensures Consistent(pieces + [Spoken(items[i].role, [items[i].content])],
                       AppendTurn(out, items[i].role, items[i].content), items, i + 1)
  {
    var p := Spoken(items[i].role, [items[i].content]);
    assert ItemsOf(p) == [items[i]];
    assert items[..i + 1] == items[..i] + [items[i]];
    PushPiece(pieces, out, p);
    AllItemsOfMore(pieces, p);
    JustifiedGrows(pieces, [p]);
  }

  lemma RealStep(pieces: seq<Piece>, out: seq<Turn>, items: seq<Item>, i: nat) returns (pieces': seq<Piece>)
    requires WellGrouped(items) && i < |items| && items[i].Real? && Consistent(pieces, out, items, i)
    ensures Consistent(pieces', RealTurns(out, items[i].role, items[i].content), items, i + 1)
  {
    var role, content := items[i].role, items[i].content;
    assert items[..i + 1] == items[..i] + [items[i]];
    if pieces == [] && role == Model {
      LeadingModelStep(items);
      pieces' := [Padded, Spoken(Model, [content])];
    } else if pieces != [] && pieces[|pieces| - 1].Spoken? && pieces[|pieces| - 1].role == role {
      MergePiece(pieces, out, role, pieces[|pieces| - 1].contents, content);
      pieces' := pieces[..|pieces| - 1] + [Spoken(role, pieces[|pieces| - 1].contents + [content])];
    } else {
      NewSpokenStep(pieces, out, items, i);
      pieces' := pieces + [Spoken(role, [content])];
    }
  }

  lemma EventsOfMore(messages: seq<Message>, system: Option<string>, k: nat)
    requires k < |messages|
    ensures EventsOf(messages[..k + 1], system) == EventsOf(messages[..k], system) + [EventOf(messages[k])]
  {
    var n := if system.Some? && system.value != "" then 1 else 0;
    var more, before := EventsOf(messages[..k + 1], system), EventsOf(messages[..k], system);
    assert |more| == n + k + 1 && |before| == n + k;
    forall i | 0 <= i < n + k ensures more[i] == before[i] {
    }
  }

  method BuildEvents(messages: seq<Message>, system: Option<string>) returns (events: seq<Event>)
    ensures events == EventsOf(messages, system)
  {
    events := if system.Some? && system.value != "" then [Sys(system.value)] else [];
    for k := 0 to |messages|
      invariant events == EventsOf(messages[..k], system)
    {
      EventsOfMore(messages, system, k);
      events := events + [EventOf(messages[k])];
    }
    assert messages[..|messages|] == messages;
  }

  // Lines 97-131.
  method EmitPrelude(out: seq<Turn>, preamble: string, nextReal: Option<Role>) returns (out': seq<Turn>)
    ensures out' == PreludeTurns(out, preamble, nextReal)
  {
    out' := out;
    var lastRole := LastRole(out);
    if nextReal == Some(User) {
      if lastRole == Some(User) {
        out' := AppendTurn(out', Model, ACK);
      }
      out' := AppendTurn(out', User, preamble);
      out' := AppendTurn(out', Model, ACK);
    } else if nextReal.None? {
      if lastRole == Some(User) {
        out' := AppendTurn(out', Model, ACK);
        out' := AppendTurn(out', User, preamble);
      } else {
        out' := AppendTurn(out', User, preamble);
        if lastRole.None? {
          out' := AppendTurn(out', Model, ACK);
        }
      }
    } else {
      if lastRole == Some(User) {
        out' := AppendTurn(out', Model, ACK);
      }
      out' := AppendTurn(out', User, preamble);
    }
  }

  method ToGeminiContents(messages: seq<Message>, system: Option<string>)
    returns (out: seq<Turn>)
    ensures MeetsContract(out, Grouped(EventsOf(messages, system), []))
  {
    var events := BuildEvents(messages, system);
    var cleaned := Group(events);
    GroupedIsWellGrouped(events, []);
    out := [];
    ghost var pieces: seq<Piece> := [];
    for i := 0 to |cleaned|
      invariant Consistent(pieces, out, cleaned, i)
    {
      if cleaned[i].Prelude? {
        pieces := PreludeStep(pieces, out, cleaned, i);
        out := EmitPrelude(out, cleaned[i].text, NextReal(cleaned, i + 1));
      } else {
        pieces := RealStep(pieces, out, cleaned, i);
        if out == [] && cleaned[i].role != User {
          out := AppendTurn(out, User, "");
        }
        out := AppendTurn(out, cleaned[i].role, cleaned[i].content);
      }
    }
    ConsistentAtEnd(pieces, out, cleaned);
  }

  lemma ConsistentAtEnd(pieces: seq<Piece>, out: seq<Turn>, items: seq<Item>)
    requires Consistent(pieces, out, items, |items|)
    ensures Renders(pieces, out) && Contract(pieces, items)
  {
    assert items[..|items|] == items;
  }

  // ----- The contract leaves no choice -----

  lemma {:induction false} AllItemsSplits(pieces: seq<Piece>, j: nat)
    requires j <= |pieces|
    ensures AllItems(pieces) == AllItems(pieces[..j]) + AllItems(pieces[j..])
  {
    assert pieces == pieces[..j] + pieces[j..];
    SplitAs(pieces, pieces[..j], pieces[j..]);
  }

  lemma {:induction false} SplitAs(pieces: seq<Piece>, front: seq<Piece>, back: seq<Piece>)
    requires pieces == front + back
    ensures AllItems(pieces) == AllItems(front) + AllItems(back)
    decreases |back|
  {
    if back == [] {
      assert pieces == front;
    } else {
      var n := |pieces| - 1;
      SplitAs(pieces[..n], front, back[..|back| - 1]);
      Glue(AllItems(front), AllItems(back[..|back| - 1]), ItemsOf(pieces[n]),
           AllItems(pieces[..n]), AllItems(back), AllItems(pieces));
    }
  }

  lemma AllItemsOfFirst(p: Piece, pieces: seq<Piece>)
    ensures AllItems([p] + pieces) == ItemsOf(p) + AllItems(pieces)
  {
    AllItemsOfOne(p);
    SplitFirst(p, [p], pieces, [p] + pieces);
  }

  lemma {:induction false} SplitFirst(p: Piece, one: seq<Piece>, pieces: seq<Piece>, whole: seq<Piece>)
    requires whole == one + pieces && AllItems(one) == ItemsOf(p)
    ensures AllItems(whole) == ItemsOf(p) + AllItems(pieces)
  {
    SplitAs(whole, one, pieces);
  }

  // (a + b) + c == a + (b + c)
  lemma Glue(a: seq<Item>, b: seq<Item>, c: seq<Item>, ab: seq<Item>, bc: seq<Item>, abc: seq<Item>)
    requires ab == a + b && bc == b + c && abc == ab + c
    ensures abc == a + bc
  {
  }

  lemma ItemsFrom(pieces: seq<Piece>, j: nat)
    requires j < |pieces|
    ensures AllItems(pieces[j..]) == ItemsOf(pieces[j]) + AllItems(pieces[j + 1..])
  {
    assert pieces[j..] == [pieces[j]] + pieces[j + 1..];
    AllItemsOfFirst(pieces[j], pieces[j + 1..]);
  }

  // What piece `j` can be, given the items still to be accounted for.
  predicate Fits(p: Piece, rest: seq<Item>) {
    match p
    case Preluded(text) => rest != [] && rest[0] == Prelude(text)
    case Acknowledged => rest != [] ==> rest[0].Prelude? || rest[0].role == User
    case Padded => rest != [] && rest[0].Real? && rest[0].role == Model
    case Spoken(role, contents) =>
      && 0 < |contents| <= |rest|
      && (forall i :: 0 <= i < |contents| ==> rest[i] == Real(role, contents[i]))
      && (|contents| < |rest| ==> !(rest[|contents|].Real? && rest[|contents|].role == role))
  }

  lemma SpokenFits(pieces: seq<Piece>, j: nat)
    requires Alternates(pieces) && Justified(pieces) && j < |pieces| && pieces[j].Spoken?
    ensures Fits(pieces[j], AllItems(pieces[j..]))
  {
    var tail := pieces[j + 1..];
    ItemsFrom(pieces, j);
    assert JustifiedAt(pieces, j);
    if tail != [] {
      FirstItem(pieces, j + 1);
      assert JustifiedAt(pieces, j + 1);
      assert RoleOf(pieces[j]) != RoleOf(pieces[j + 1]);
      assert AllItems(pieces[j..])[|pieces[j].contents|..] == AllItems(tail);
    }
  }

  // The first item of the rest is of the first piece or, behind a synthetic one, of the second.
  lemma FirstItem(pieces: seq<Piece>, j: nat)
    requires Alternates(pieces) && Justified(pieces) && j < |pieces|
    ensures
      var rest := AllItems(pieces[j..]);
      match pieces[j] {
        case Preluded(text) => rest != [] && rest[0] == Prelude(text)
        case Spoken(role, contents) => contents != [] && rest != [] && rest[0] == Real(role, contents[0])
        case Padded => rest != [] && rest[0].Real? && rest[0].role == Model
        case Acknowledged =>
          (rest == [] <==> j == |pieces| - 1) &&
          (rest != [] ==> rest[0].Prelude? || rest[0].role == User) &&
          (rest != [] && j > 0 && !pieces[j - 1].Preluded? ==> rest[0].Prelude?)
      }
    decreases |pieces| - j
  {
    ItemsFrom(pieces, j);
    assert JustifiedAt(pieces, j);
    if (pieces[j].Acknowledged? || pieces[j].Padded?) && j + 1 < |pieces| {
      FirstItem(pieces, j + 1);
      assert JustifiedAt(pieces, j + 1);
      assert RoleOf(pieces[j]) != RoleOf(pieces[j + 1]);
    }
  }

  lemma {:induction false} SameRest(p: seq<Piece>, q: seq<Piece>, j: nat)
    requires AllItems(p) == AllItems(q)
    requires j <= |p| && j <= |q| && p[..j] == q[..j]
    ensures AllItems(p[j..]) == AllItems(q[j..])
  {
    AllItemsSplits(p, j);
    AllItemsSplits(q, j);
    CancelFront(AllItems(p[..j]), AllItems(p[j..]), AllItems(q[j..]));
  }

  lemma CancelFront(front: seq<Item>, a: seq<Item>, b: seq<Item>)
    requires front + a == front + b
    ensures a == b
  {
    assert a == (front + a)[|front|..] == (front + b)[|front|..] == b;
  }

  lemma PieceFits(p: seq<Piece>, items: seq<Item>, j: nat)
    requires Contract(p, items) && j < |p|
    ensures Fits(p[j], AllItems(p[j..]))
  {
    assert JustifiedAt(p, j);
    if p[j].Spoken? { SpokenFits(p, j); } else { FirstItem(p, j); }
  }

  lemma SamePiece(p: seq<Piece>, q: seq<Piece>, items: seq<Item>, j: nat)
    requires Contract(p, items) && Contract(q, items)
    requires j < |p| && j < |q| && p[..j] == q[..j]
    ensures p[j] == q[j]
  {
    SameRest(p, q, j);
    PieceFits(p, items, j);
    PieceFits(q, items, j);
    if j == 0 {
      SameKind(p[j], q[j], AllItems(p[j..]));
    } else {
      assert p[j - 1] == p[..j][j - 1] == q[..j][j - 1] == q[j - 1];
      SameKind(p[j], q[j], AllItems(p[j..]));
    }
  }

  lemma SameKind(p: Piece, q: Piece, rest: seq<Item>)
    requires RoleOf(p) == RoleOf(q) && Fits(p, rest) && Fits(q, rest)
    ensures p == q
  {
    if p.Spoken? && q.Spoken? {
      var m, n := |p.contents|, |q.contents|;
      assert m < n ==> rest[m] == Real(q.role, q.contents[m]);
      assert n < m ==> rest[n] == Real(p.role, p.contents[n]);
      assert p.contents == q.contents;
    }
  }

  // The contract leaves one possible output.
  lemma ContractDeterminesOutput(out: seq<Turn>, out': seq<Turn>, items: seq<Item>)
    requires MeetsContract(out, items) && MeetsContract(out', items)
    ensures out == out'
  {
    var p :| Renders(p, out) && Contract(p, items);
    var q :| Renders(q, out') && Contract(q, items);
    ContractDeterminesPieces(p, q, items);
  }

  lemma ContractDeterminesPieces(p: seq<Piece>, q: seq<Piece>, items: seq<Item>)
    requires Contract(p, items) && Contract(q, items)
    ensures p == q
  {
    var n := if |p| < |q| then |p| else |q|;
    AgreeUpTo(p, q, items, n);
    assert p[..n] == q[..n];
    if n < |p| { NothingBeyond(q, p, items); }
    if n < |q| { NothingBeyond(p, q, items); }
  }

  lemma {:induction false} AgreeUpTo(p: seq<Piece>, q: seq<Piece>, items: seq<Item>, j: nat)
    requires Contract(p, items) && Contract(q, items) && j <= |p| && j <= |q|
    ensures p[..j] == q[..j]
  {
    if j > 0 {
      AgreeUpTo(p, q, items, j - 1);
      SamePiece(p, q, items, j - 1);
      assert p[..j] == p[..j - 1] + [p[j - 1]] && q[..j] == q[..j - 1] + [q[j - 1]];
    }
  }

  lemma NothingBeyond(p: seq<Piece>, q: seq<Piece>, items: seq<Item>)
    requires Contract(p, items) && Contract(q, items)
    requires |p| <= |q| && p == q[..|p|]
    ensures |p| == |q|
  {
    if |p| < |q| {
      var j := |p|;
      AllItemsSplits(q, j);
      assert AllItems(q[j..]) == [];
      assert JustifiedAt(q, j) && (j > 0 ==> p[j - 1] == q[j - 1]);
      FirstItem(q, j);
    }
  }

  // ----- Reading the contract -----

  // A message's content stands whole in its turn, after everything said before it in that turn.
  lemma {:induction false} ContentSurvives(contents: seq<string>, k: nat)
    requires k < |contents|
    ensures Merged(contents[..k + 1]) <= Merged(contents)
    ensures Merged(contents[..k + 1]) == if k == 0 then contents[0] else Joined(Merged(contents[..k]), contents[k])
    decreases |contents|
  {
    if k == |contents| - 1 {
      assert contents[..k + 1] == contents;
    } else {
      var shorter := contents[..|contents| - 1];
      ContentSurvives(shorter, k);
      assert shorter[..k + 1] == contents[..k + 1] && shorter[..k] == contents[..k];
    }
  }

  // Nothing comes out exactly when nothing was said; a prelude on its own is acknowledged.
  lemma OutputIsEmptyIff(messages: seq<Message>, system: Option<string>, out: seq<Turn>)
    requires MeetsContract(out, Grouped(EventsOf(messages, system), []))
    ensures out == [] <==> messages == [] && (system.None? || system.value == "")
  {
    var pieces :| Renders(pieces, out) && Contract(pieces, Grouped(EventsOf(messages, system), []));
    var events := EventsOf(messages, system);
    GroupedIsEmptyIff(events, []);
    if pieces != [] && AllItems(pieces) == [] {
      assert pieces[0..] == pieces && JustifiedAt(pieces, 0);
      FirstItem(pieces, 0);
    }
  }

  lemma {:induction false} GroupedIsEmptyIff(events: seq<Event>, pending: seq<string>)
    ensures Grouped(events, pending) == [] <==> events == [] && pending == []
    decreases |events|
  {
    if events != [] {
      match events[0]
      case Sys(text) => GroupedIsEmptyIff(events[1..], pending + [text]);
      case Said(role, content) =>
    }
  }

  function Reals(items: seq<Item>): seq<Item> {
    if items == [] then [] else (if items[0].Real? then [items[0]] else []) + Reals(items[1..])
  }

  function SaidIn(events: seq<Event>): seq<Item> {
    if events == [] then []
    else (if events[0].Said? then [Real(GeminiRole(events[0].role), events[0].content)] else []) + SaidIn(events[1..])
  }

  // Grouping the system texts loses and reorders no message.
  lemma {:induction false} GroupingKeepsMessages(events: seq<Event>, pending: seq<string>)
    ensures Reals(Grouped(events, pending)) == SaidIn(events)
    decreases |events|
  {
    if events == [] {
      FlushIsSilent(pending, []);
    } else {
      match events[0]
      case Sys(text) => GroupingKeepsMessages(events[1..], pending + [text]);
      case Said(role, content) =>
        GroupingKeepsMessages(events[1..], []);
        FlushIsSilent(pending, [Real(GeminiRole(role), content)] + Grouped(events[1..], []));
        assert Flush(pending) + [Real(GeminiRole(role), content)] + Grouped(events[1..], [])
            == Flush(pending) + ([Real(GeminiRole(role), content)] + Grouped(events[1..], []));
    }
  }

  lemma FlushIsSilent(pending: seq<string>, items: seq<Item>)
    ensures Reals(Flush(pending) + items) == Reals(items)
    ensures Flush(pending) + [] == Flush(pending)
  {
    if pending != [] {
      assert (Flush(pending) + items)[1..] == items;
    } else {
      assert Flush(pending) + items == items;
    }
  }

  // ----- What the items stand for -----

  predicate IsSystem(m: Message) {
    m.role == Some("system")
  }

  function Words(m: Message): string {
    if m.content.Some? then m.content.value else ""
  }

  predicate IsOnModelSide(m: Message) {
    m.role == Some("assistant") || m.role == Some("model")
  }

  function WordsOf(messages: seq<Message>): seq<string> {
    seq(|messages|, i requires 0 <= i < |messages| => Words(messages[i]))
  }

  // Each text under its heading, one below the other.
  function Headed(texts: seq<string>): string
    requires texts != []
  {
    "System instruction:\n" + texts[0] + if |texts| == 1 then "" else "\n" + Headed(texts[1..])
  }

  // An item stands for the messages from `lo` to `hi`, and for the texts in `lead` before them: a prelude for system
  // texts under their headings, a real item for one other message.
  predicate StandsFor(item: Item, messages: seq<Message>, lo: nat, hi: nat, lead: seq<string>)
    requires lo <= hi <= |messages|
  {
    var stretch := messages[lo..hi];
    match item
    case Prelude(text) =>
      && (forall i :: 0 <= i < |stretch| ==> IsSystem(stretch[i]))
      && lead + WordsOf(stretch) != [] && text == Headed(lead + WordsOf(stretch))
    case Real(role, content) =>
      && lead == [] && |stretch| == 1 && !IsSystem(stretch[0])
      && content == Words(stretch[0]) && (role == Model <==> IsOnModelSide(stretch[0]))
  }

  predicate StandsAt(items: seq<Item>, messages: seq<Message>, lead: seq<string>, cuts: seq<nat>, i: nat)
    requires i < |items| && |cuts| == |items| + 1
  {
    cuts[i] <= cuts[i + 1] <= |messages| &&
    StandsFor(items[i], messages, cuts[i], cuts[i + 1], if i == 0 then lead else [])
  }

  // The items account for all messages from `start` on, in order, each once.
  predicate Accounts(items: seq<Item>, messages: seq<Message>, start: nat, lead: seq<string>, cuts: seq<nat>) {
    && |cuts| == |items| + 1 && cuts[0] == start && cuts[|items|] == |messages|
    && (lead != [] ==> items != [])
    && forall i :: 0 <= i < |items| ==> StandsAt(items, messages, lead, cuts, i)
  }

  lemma {:induction false} PreambleIsHeaded(texts: seq<string>)
    requires texts != []
    ensures Preamble(texts) == Headed(texts)
  {
    if |texts| > 1 {
      var front, last := texts[..|texts| - 1], texts[|texts| - 1];
      PreambleIsHeaded(front);
      HeadedOfMore(front, last);
      assert texts == front + [last];
    }
  }

  lemma {:induction false} HeadedOfMore(texts: seq<string>, last: string)
    requires texts != []
    ensures Headed(texts + [last]) == Headed(texts) + "\n" + ("System instruction:\n" + last)
  {
    var more := texts + [last];
    if |texts| == 1 {
      assert more[1..] == [last];
      assert Headed([last]) == "System instruction:\n" + last + "";
    } else {
      assert more[1..] == texts[1..] + [last];
      HeadedOfMore(texts[1..], last);
      HeadedRegroup("System instruction:\n" + texts[0], Headed(texts[1..]), "\n" + ("System instruction:\n" + last));
    }
  }

  lemma HeadedRegroup(a: string, b: string, c: string)
    ensures a + ("\n" + (b + c)) == a + ("\n" + b) + c
    ensures a + "" == a
  {
  }

  lemma PrependsPrelude(items: seq<Item>, messages: seq<Message>, start: nat, lead: seq<string>, cuts: seq<nat>)
    requires lead != [] && start <= |messages| && Accounts(items, messages, start, [], cuts)
    requires items != [] ==> items[0].Real?
    ensures Accounts([Prelude(Preamble(lead))] + items, messages, start, lead, [start] + cuts)
  {
    var more, cuts' := [Prelude(Preamble(lead))] + items, [start] + cuts;
    PreambleIsHeaded(lead);
    assert messages[start..start] == [] && lead + WordsOf([]) == lead;
    forall i | 0 <= i < |more| ensures StandsAt(more, messages, lead, cuts', i) {
      if i > 0 { assert StandsAt(items, messages, [], cuts, i - 1); }
    }
  }

  lemma PrependsReal(items: seq<Item>, messages: seq<Message>, start: nat, cuts: seq<nat>)
    requires start < |messages| && !IsSystem(messages[start]) && Accounts(items, messages, start + 1, [], cuts)
    ensures
      var item := Real(if IsOnModelSide(messages[start]) then Model else User, Words(messages[start]));
      Accounts([item] + items, messages, start, [], [start] + cuts)
  {
    var item := Real(if IsOnModelSide(messages[start]) then Model else User, Words(messages[start]));
    var more, cuts' := [item] + items, [start] + cuts;
    assert messages[start..start + 1] == [messages[start]];
    forall i | 0 <= i < |more| ensures StandsAt(more, messages, [], cuts', i) {
      if i > 0 { assert StandsAt(items, messages, [], cuts, i - 1); }
    }
  }

  lemma TakesSystemText(items: seq<Item>, messages: seq<Message>, start: nat, lead: seq<string>, cuts: seq<nat>)
    requires start < |messages| && IsSystem(messages[start])
    requires Accounts(items, messages, start + 1, lead + [Words(messages[start])], cuts)
    ensures Accounts(items, messages, start, lead, [start] + cuts[1..])
  {
    var cuts' := [start] + cuts[1..];
    var longer := lead + [Words(messages[start])];
    assert StandsAt(items, messages, longer, cuts, 0);
    var stretch, rest := messages[start..cuts[1]], messages[start + 1..cuts[1]];
    assert stretch == [messages[start]] + rest;
    assert lead + WordsOf(stretch) == longer + WordsOf(rest);
    forall i | 0 <= i < |items| ensures StandsAt(items, messages, lead, cuts', i) {
      assert StandsAt(items, messages, longer, cuts, i);
    }
  }

  lemma EventOfMessage(m: Message)
    ensures IsSystem(m) ==> EventOf(m) == Sys(Words(m))
    ensures !IsSystem(m) ==> EventOf(m).Said? && EventOf(m).content == Words(m)
    ensures !IsSystem(m) ==> (GeminiRole(EventOf(m).role) == Model <==> IsOnModelSide(m))
  {
  }

  lemma GroupedSaid(events: seq<Event>, pending: seq<string>)
    requires events != [] && events[0].Said?
    ensures
      var said := [Real(GeminiRole(events[0].role), events[0].content)] + Grouped(events[1..], []);
      Grouped(events, pending) == if pending == [] then said else [Prelude(Preamble(pending))] + said
  {
  }

  lemma {:induction false} GroupedAccounts(messages: seq<Message>, start: nat, pending: seq<string>)
    returns (cuts: seq<nat>)
    requires start <= |messages|
    ensures Accounts(Grouped(EventsOf(messages[start..], None), pending), messages, start, pending, cuts)
    decreases |messages| - start
  {
    var events := EventsOf(messages[start..], None);
    if start == |messages| {
      cuts := [start];
      if pending != [] {
        PrependsPrelude([], messages, start, pending, cuts);
        assert [Prelude(Preamble(pending))] + [] == [Prelude(Preamble(pending))];
        cuts := [start] + cuts;
      }
    } else {
      var m := messages[start];
      assert events[0] == EventOf(m) && events[1..] == EventsOf(messages[start + 1..], None);
      EventOfMessage(m);
      if IsSystem(m) {
        cuts := GroupedAccounts(messages, start + 1, pending + [Words(m)]);
        TakesSystemText(Grouped(events, pending), messages, start, pending, cuts);
        cuts := [start] + cuts[1..];
      } else {
        cuts := GroupedAccounts(messages, start + 1, []);
        PrependsReal(Grouped(events[1..], []), messages, start, cuts);
        cuts := [start] + cuts;
        GroupedSaid(events, pending);
        if pending != [] {
          PrependsPrelude([Real(GeminiRole(events[0].role), events[0].content)] + Grouped(events[1..], []),
                          messages, start, pending, cuts);
          cuts := [start] + cuts;
        }
      }
    }
  }

  // What the system argument adds before all messages.
  function Lead(system: Option<string>): seq<string> {
    if system.Some? && system.value != "" then [system.value] else []
  }

  lemma EventsOfLead(messages: seq<Message>, system: Option<string>)
    ensures Grouped(EventsOf(messages, system), []) == Grouped(EventsOf(messages, None), Lead(system))
  {
    var events := EventsOf(messages, None);
    if system.Some? && system.value != "" {
      assert EventsOf(messages, system) == [Sys(system.value)] + events;
      assert ([Sys(system.value)] + events)[1..] == events;
      assert [] + [system.value] == [system.value];
    } else {
      assert EventsOf(messages, system) == events;
    }
  }

  // Every output under the contract is made of turns whose items stand, in order, for the system text and all messages:
  // a real item for each message that is no system message, with its content, on the model side exactly when its role
  // is "assistant" or "model"; a prelude for each stretch of system texts between them, and never two in a row.
  lemma OutputStandsForMessages(messages: seq<Message>, system: Option<string>, out: seq<Turn>)
    returns (pieces: seq<Piece>, cuts: seq<nat>)
    requires MeetsContract(out, Grouped(EventsOf(messages, system), []))
    ensures Renders(pieces, out) && Contract(pieces, AllItems(pieces))
    ensures Accounts(AllItems(pieces), messages, 0, Lead(system), cuts) && WellGrouped(AllItems(pieces))
  {
    var events := EventsOf(messages, system);
    pieces :| Renders(pieces, out) && Contract(pieces, Grouped(events, []));
    GroupedIsWellGrouped(events, []);
    EventsOfLead(messages, system);
    assert messages[0..] == messages;
    cuts := GroupedAccounts(messages, 0, Lead(system));
  }

  // ----- The text of a turn -----

  function Lines(contents: seq<string>): string
    requires contents != []
  {
    contents[0] + if |contents| == 1 then "" else "\n" + Lines(contents[1..])
  }

  // The text is the contents on lines of their own, from the first one on that is not empty.
  predicate OnLines(contents: seq<string>, k: nat, text: string) {
    && k <= |contents| && (forall i :: 0 <= i < k ==> contents[i] == "")
    && text == (if k == |contents| then "" else Lines(contents[k..]))
    && (k < |contents| ==> contents[k] != "")
  }

  lemma {:induction false} MergedIsLines(contents: seq<string>) returns (k: nat)
    requires contents != []
    ensures OnLines(contents, k, Merged(contents))
  {
    var front, last := contents[..|contents| - 1], contents[|contents| - 1];
    if front == [] {
      k := if last == "" then 1 else 0;
      assert contents[0..] == contents && last + "" == last;
    } else {
      k := MergedIsLines(front);
      OnMoreLines(front, last, k, Merged(front));
      assert contents == front + [last];
      if k == |front| && last == "" { k := |contents|; }
    }
  }

  lemma OnMoreLines(front: seq<string>, last: string, k: nat, text: string)
    requires front != [] && OnLines(front, k, text)
    ensures OnLines(front + [last], if k == |front| && last == "" then k + 1 else k, Joined(text, last))
  {
    var contents := front + [last];
    assert forall i :: 0 <= i < |front| ==> front[i] == contents[i];
    if k < |front| {
      assert contents[k..] == front[k..] + [last];
      LinesOfMore(front[k..], last);
    } else {
      assert contents[k..] == [last];
      assert Lines([last]) == last + "" && last + "" == last;
      assert "" + "" + last == last;
    }
  }

  lemma {:induction false} LinesOfMore(contents: seq<string>, last: string)
    requires contents != []
    ensures Lines(contents + [last]) == Lines(contents) + "\n" + last
    ensures contents[0] != "" ==> Lines(contents) != ""
  {
    var more := contents + [last];
    if |contents| == 1 {
      assert more[1..] == [last];
      assert Lines([last]) == last + "";
    } else {
      assert more[1..] == contents[1..] + [last];
      LinesOfMore(contents[1..], last);
      HeadedRegroup(contents[0], Lines(contents[1..]), "\n" + last);
    }
  }

  // The shortest conversations, turn by turn.
  lemma LonePrelude(out: seq<Turn>, text: string)
    requires MeetsContract(out, [Prelude(text)])
    ensures out == [Turn(User, text), Turn(Model, "Understood.")]
  {
    var pieces, turns := [Preluded(text), Acknowledged], [Turn(User, text), Turn(Model, "Understood.")];
    PairItems(Preluded(text), Acknowledged);
    assert Renders(pieces, turns) && Contract(pieces, [Prelude(text)]);
    ContractDeterminesOutput(out, turns, [Prelude(text)]);
  }

  lemma LoneAnswer(out: seq<Turn>, text: string)
    requires MeetsContract(out, [Real(Model, text)])
    ensures out == [Turn(User, ""), Turn(Model, text)]
  {
    var pieces, turns := [Padded, Spoken(Model, [text])], [Turn(User, ""), Turn(Model, text)];
    SpokenOnce(Model, text);
    PairItems(Padded, Spoken(Model, [text]));
    assert Contract(pieces, [Real(Model, text)]);
    assert Renders(pieces, turns);
    ContractDeterminesOutput(out, turns, [Real(Model, text)]);
  }

  lemma LoneQuestion(out: seq<Turn>, text: string)
    requires MeetsContract(out, [Real(User, text)])
    ensures out == [Turn(User, text)]
  {
    SpokenOnce(User, text);
    AllItemsOfOne(Spoken(User, [text]));
    assert Contract([Spoken(User, [text])], [Real(User, text)]);
    assert Renders([Spoken(User, [text])], [Turn(User, text)]);
    ContractDeterminesOutput(out, [Turn(User, text)], [Real(User, text)]);
  }

  lemma SpokenOnce(role: Role, text: string)
    ensures ItemsOf(Spoken(role, [text])) == [Real(role, text)]
    ensures Merged([text]) == text
  {
  }

  lemma PairItems(p: Piece, q: Piece)
    ensures AllItems([p, q]) == ItemsOf(p) + ItemsOf(q)
  {
    AllItemsOfOne(p);
    AllItemsOfMore([p], q);
    assert [p] + [q] == [p, q];
  }
}
