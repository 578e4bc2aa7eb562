/** ensureXmlWellFormed: a stack over the tags of a document. */
module WellFormedTags {
  import opened Prelude
  import opened Text
  import opened FlatXml

  /** What a tag means to the stack. */
  datatype Event = Open(name: string) | Close(name: string) | SelfClosing(name: string) | Malformed

  datatype TagError = MalformedTag | MismatchedClose | MultipleRoots | WrongRoot | UnclosedTag

  // -- reading tags --

  /** A match of <[^>]+> at the start of s. */
  function TagToken(s: string): (t: Option<Tag>)
    ensures t.Some? ==> 0 < t.value.length <= |s|
  {
    if |s| < 2 || s[0] != '<' || s[1] == '>' then None
    else
      var close := CharIndex(s, '>', 1);
      if close == -1 then None else Some(Tag("", s[..close + 1], close + 1))
  }

  /** The run of characters that may form a name. */
  function NameRun(s: string): string {
    if s == "" || IsSpace(s[0]) || s[0] == '/' || s[0] == '>' then "" else [s[0]] + NameRun(s[1..])
  }

  /** The name of a tag, by /^<\/?\s*([^\s/>]+)[^>]*>/; empty where that does not match. */
  function TagName(tag: string): string
    requires |tag| > 1
  {
    NameRun(TrimStart(if tag[1] == '/' then tag[2..] else tag[1..]))
  }

  /** Declarations and comments mean nothing. */
  function EventOf(tag: string): Option<Event> {
    if |tag| < 2 || tag[1] == '?' || tag[1] == '!' then None
    else
      var name := TagName(tag);
      if name == "" then Some(Malformed)
      else if tag[1] == '/' then Some(Close(name))
      else if tag[|tag| - 2] == '/' then Some(SelfClosing(name))
      else Some(Open(name))
  }

  function EventsOf(tags: seq<Tag>): seq<Event> {
    if tags == [] then []
    else
      match EventOf(tags[0].text)
      case None => EventsOf(tags[1..])
      case Some(e) => [e] + EventsOf(tags[1..])
  }

  // -- the stack --

  datatype State = State(stack: seq<string>, rootName: string, rootClosed: bool)

  const START := State([], "", false)
  const ROOT_NAME := "repair_order"

  function Top(stack: seq<string>): string
    requires stack != []
  {
    stack[|stack| - 1]
  }

  function Step(st: State, e: Event): Result<State, TagError> {
    match e
    case Malformed => Err(MalformedTag)
    case Close(name) =>
      if st.stack == [] || Top(st.stack) != name then Err(MismatchedClose)
      else
        var rest := st.stack[..|st.stack| - 1];
        Ok(State(rest, st.rootName, st.rootClosed || rest == []))
    case _ =>
      if st.rootClosed && st.stack == [] then Err(MultipleRoots)
      else
        var rootName := if st.stack == [] && st.rootName == "" then e.name else st.rootName;
        if st.stack == [] && rootName != ROOT_NAME then Err(WrongRoot)
        else Ok(State(if e.Open? then st.stack + [e.name] else st.stack, rootName, st.rootClosed))
  }

  function Run(st: State, events: seq<Event>): Result<State, TagError>
    decreases |events|
  {
    if events == [] then Ok(st)
    else
      match Step(st, events[0])
      case Err(e) => Err(e)
      case Ok(next) => Run(next, events[1..])
  }

  /** Going on after a result. */
  function Then(r: Result<State, TagError>, events: seq<Event>): Result<State, TagError> {
    match r
    case Err(e) => Err(e)
    case Ok(st) => Run(st, events)
  }

  /** The error reported for the events of a document, if any. */
  function Verdict(events: seq<Event>): Option<TagError> {
    match Run(START, events)
    case Err(e) => Some(e)
    case Ok(st) => if st.stack == [] then None else Some(UnclosedTag)
  }

  lemma TokenAdvances()
    ensures Advances(TagToken)
  {
  }

  method CheckTags(find: Pattern, xml: string) returns (e: Option<TagError>)
    requires Advances(find)
    ensures e == Verdict(EventsOf(Fields(find, xml)))
  {
    var stack: seq<string>, rootName, rootClosed := [], "", false;
    var idx := 0;
    ghost var todo := Fields(find, xml);
    ghost var all := Run(START, EventsOf(todo));
    assert xml[0..] == xml;
    while true
      invariant idx <= |xml| && todo == Fields(find, xml[idx..])
      invariant Run(State(stack, rootName, rootClosed), EventsOf(todo)) == all
      decreases |xml| - idx
    {
      var found, end := NextTag(find, xml, idx);
      if found == None {
        break;
      }
      assert todo[1..] == Fields(find, xml[end..]);
      todo := todo[1..];
      idx := end;
      var event := EventOf(found.value.text);
      if event.Some? {
        ghost var st := State(stack, rootName, rootClosed);
        RunHead(st, event.value, EventsOf(todo));
        if event.value.Malformed? {
          return Some(MalformedTag);
        }
        var name := event.value.name;
        if event.value.Close? {
          if stack == [] || Top(stack) != name {
            return Some(MismatchedClose);
          }
          stack := stack[..|stack| - 1];
          if stack == [] {
            rootClosed := true;
          }
        } else {
          if rootClosed && stack == [] {
            return Some(MultipleRoots);
          }
          if stack == [] {
            rootName := if rootName == "" then name else rootName;
            if rootName != ROOT_NAME {
              return Some(WrongRoot);
            }
          }
          if event.value.Open? {
            stack := stack + [name];
          }
        }
      }
    }
    if stack != [] {
      return Some(UnclosedTag);
    }
    return None;
  }

  lemma RunHead(st: State, e: Event, rest: seq<Event>)
    ensures Run(st, [e] + rest) == Then(Step(st, e), rest)
  {
    assert ([e] + rest)[1..] == rest;
  }

  /** What is reported for a text. */
  ghost function Report(xml: string): Option<TagError> {
    TokenAdvances();
    Verdict(EventsOf(Fields(TagToken, xml)))
  }

  method EnsureXmlWellFormed(xml: string) returns (e: Option<TagError>)
    ensures e == Report(xml)
  {
    TokenAdvances();
    e := CheckTags(TagToken, xml);
  }

  // -- documents --

  /** Sibling elements: a self-closing tag, or an element with its content, and what follows. */
  datatype Forest =
    | Nothing
    | Leaf(name: string, rest: Forest)
    | Element(name: string, content: Forest, rest: Forest)

  function Print(f: Forest): seq<Event> {
    match f
    case Nothing => []
    case Leaf(n, rest) => [SelfClosing(n)] + Print(rest)
    case Element(n, content, rest) => [Open(n)] + (Print(content) + ([Close(n)] + Print(rest)))
  }

  /** At most the last of the top elements has content tags of its own. */
  ghost predicate TopShape(f: Forest) {
    match f
    case Nothing => true
    case Leaf(_, rest) => TopShape(rest)
    case Element(_, _, rest) => rest == Nothing
  }

  ghost predicate Document(f: Forest) {
    TopShape(f) && (f == Nothing || f.name == ROOT_NAME)
  }

  lemma {:induction false} RunConcat(st: State, a: seq<Event>, b: seq<Event>)
    ensures Run(st, a + b) == Then(Run(st, a), b)
    decreases |a|
  {
    if a == [] {
      assert a + b == b;
    } else {
      assert (a + b)[1..] == a[1..] + b;
      if Step(st, a[0]).Ok? {
        RunConcat(Step(st, a[0]).value, a[1..], b);
      }
    }
  }

  /** Inside an element, a forest leaves the stack as it was. */
  lemma {:induction false} InnerRuns(st: State, f: Forest)
    requires st.stack != []
    ensures Run(st, Print(f)) == Ok(st)
    decreases f
  {
    match f
    case Nothing =>
    case Leaf(n, rest) =>
      RunHead(st, SelfClosing(n), Print(rest));
      InnerRuns(st, rest);
    case Element(n, content, rest) =>
      var inner := State(st.stack + [n], st.rootName, st.rootClosed);
      RunHead(st, Open(n), Print(content) + ([Close(n)] + Print(rest)));
      RunConcat(inner, Print(content), [Close(n)] + Print(rest));
      InnerRuns(inner, content);
      RunHead(inner, Close(n), Print(rest));
      assert inner.stack[..|inner.stack| - 1] == st.stack;
      InnerRuns(st, rest);
  }

  /** At the top, before any root has closed. */
  ghost predicate AtTop(st: State) {
    st.stack == [] && !st.rootClosed && (st.rootName == "" || st.rootName == ROOT_NAME)
  }

  lemma {:induction false} TopRuns(st: State, f: Forest)
    requires AtTop(st) && TopShape(f) && (st.rootName == ROOT_NAME || f == Nothing || f.name == ROOT_NAME)
    ensures Run(st, Print(f)).Ok? && Run(st, Print(f)).value.stack == []
    decreases f
  {
    match f
    case Nothing =>
    case Leaf(n, rest) =>
      RunHead(st, SelfClosing(n), Print(rest));
      TopRuns(State([], ROOT_NAME, false), rest);
    case Element(n, content, rest) =>
      var inner := State([n], ROOT_NAME, false);
      assert [] + [n] == [n];
      RunHead(st, Open(n), Print(content) + ([Close(n)] + Print(rest)));
      RunConcat(inner, Print(content), [Close(n)] + Print(rest));
      InnerRuns(inner, content);
      RunHead(inner, Close(n), Print(rest));
      assert inner.stack[..0] == [];
  }

  // -- every accepted run comes from a document --

  ghost predicate Ends(st: State, events: seq<Event>) {
    Run(st, events).Ok? && Run(st, events).value.stack == []
  }

  /** A run that empties the stack closes the top element after a forest. */
  lemma {:induction false} ParseInner(st: State, events: seq<Event>) returns (f: Forest, rest: seq<Event>)
    requires st.stack != [] && Ends(st, events)
    ensures events == Print(f) + ([Close(Top(st.stack))] + rest) && |rest| < |events|
    ensures Step(st, Close(Top(st.stack))).Ok? && Ends(Step(st, Close(Top(st.stack))).value, rest)
    decreases |events|
  {
    var e, tail := events[0], events[1..];
    assert events == [e] + tail;
    if e.Close? {
      f, rest := Nothing, tail;
      assert Print(f) + ([e] + rest) == events;
    } else if e.SelfClosing? {
      var f1;
      f1, rest := ParseInner(st, tail);
      f := Leaf(e.name, f1);
      AssocThree([e], Print(f1), [Close(Top(st.stack))] + rest);
    } else {
      var inner := State(st.stack + [e.name], st.rootName, st.rootClosed);
      var content, after := ParseInner(inner, tail);
      assert inner.stack[..|inner.stack| - 1] == st.stack;
      var f1;
      f1, rest := ParseInner(st, after);
      f := Element(e.name, content, f1);
      AssocFive([e], Print(content), [Close(e.name)], Print(f1), [Close(Top(st.stack))] + rest);
    }
  }

  lemma AssocThree(a: seq<Event>, b: seq<Event>, c: seq<Event>)
    ensures a + (b + c) == (a + b) + c
  {
  }

  lemma AssocFive(a: seq<Event>, b: seq<Event>, c: seq<Event>, d: seq<Event>, e: seq<Event>)
    ensures a + (b + (c + (d + e))) == (a + (b + (c + d))) + e
  {
  }

  /** After the root has closed nothing but the end can follow. */
  lemma NothingFollows(st: State, events: seq<Event>)
    requires st.stack == [] && st.rootClosed && Ends(st, events)
    ensures events == []
  {
  }

  lemma {:induction false} ParseTop(st: State, events: seq<Event>) returns (f: Forest)
    requires AtTop(st) && Ends(st, events)
    ensures events == Print(f) && TopShape(f)
    ensures st.rootName == ROOT_NAME || f == Nothing || f.name == ROOT_NAME
    decreases |events|
  {
    if events == [] {
      f := Nothing;
    } else {
      var e, tail := events[0], events[1..];
      assert events == [e] + tail;
      if e.SelfClosing? {
        var rest := ParseTop(State([], ROOT_NAME, false), tail);
        f := Leaf(e.name, rest);
      } else {
        var inner := State([e.name], ROOT_NAME, false);
        assert [] + [e.name] == [e.name];
        var content, after := ParseInner(inner, tail);
        assert inner.stack[..0] == [];
        NothingFollows(State([], ROOT_NAME, true), after);
        f := Element(e.name, content, Nothing);
      }
    }
  }

  /** The check passes exactly for the tags of a document: self-closing tags and then at
      most one nested element, the first of them named repair_order. */
  lemma AcceptedIffDocument(events: seq<Event>)
    ensures Verdict(events) == None <==> exists f :: Document(f) && events == Print(f)
  {
    if Verdict(events) == None {
      var f := ParseTop(START, events);
      assert Document(f);
    }
    if f :| Document(f) && events == Print(f) {
      TopRuns(START, f);
    }
  }

  /** One document element, as section 2.1 of XML 1.0 asks for. */
  ghost predicate OneRoot(f: Forest) {
    f != Nothing && f.rest == Nothing
  }

  /** The first event tells what a printed forest begins with. */
  lemma {:induction false} FirstOfPrint(f: Forest, a: seq<Event>)
    requires a == [] || a[0].Close?
    ensures
      var s := Print(f) + a;
      match f
      case Nothing => s == a
      case Leaf(n, rest) => s != [] && s[0] == SelfClosing(n) && s[1..] == Print(rest) + a
      case Element(n, content, rest) =>
        s != [] && s[0] == Open(n) && s[1..] == Print(content) + ([Close(n)] + (Print(rest) + a))
  {
    match f
    case Nothing => assert [] + a == a;
    case Leaf(n, rest) => HeadOfThree(SelfClosing(n), Print(rest), a);
    case Element(n, content, rest) =>
      var more := [Close(n)] + Print(rest);
      HeadOfThree(Open(n), Print(content) + more, a);
      AssocThree(Print(content), more, a);
      AssocThree([Close(n)], Print(rest), a);
  }

  lemma HeadOfThree(e: Event, b: seq<Event>, c: seq<Event>)
    ensures (([e] + b) + c)[0] == e && (([e] + b) + c)[1..] == b + c
  {
  }

  /** The tags of a document determine it. */
  lemma {:induction false} PrintIsInjective(f: Forest, g: Forest, a: seq<Event>, b: seq<Event>)
    requires Print(f) + a == Print(g) + b
    requires (a == [] || a[0].Close?) && (b == [] || b[0].Close?)
    ensures f == g && a == b
    decreases f
  {
    FirstOfPrint(f, a);
    FirstOfPrint(g, b);
    match f {
      case Nothing =>
      case Leaf(n, rest) =>
        PrintIsInjective(rest, g.rest, a, b);
      case Element(n, content, rest) =>
        var more, other := [Close(n)] + (Print(rest) + a), [Close(g.name)] + (Print(g.rest) + b);
        PrintIsInjective(content, g.content, more, other);
        assert more[1..] == Print(rest) + a && other[1..] == Print(g.rest) + b;
        PrintIsInjective(rest, g.rest, a, b);
    }
  }

  /** An accepted document has one document element exactly when it has a tag and its first
      tag is not self-closing, or is its only one. */
  lemma OneRootIff(f: Forest)
    requires Document(f)
    ensures Verdict(Print(f)) == None
    ensures OneRoot(f) <==> Print(f) != [] && (Print(f)[0].SelfClosing? ==> |Print(f)| == 1)
  {
    TopRuns(START, f);
  }

  // -- which error is reported --

  /** Closing tags for the open elements, innermost first. */
  function Closing(open: seq<string>): seq<Event> {
    if open == [] then [] else [Close(Top(open))] + Closing(open[..|open| - 1])
  }

  /** After these events exactly the elements of these names are open: closing them, innermost first,
      makes a document. */
  ghost predicate LeavesOpen(events: seq<Event>, open: seq<string>) {
    exists f :: Document(f) && events + Closing(open) == Print(f)
  }

  predicate Begins(e: Event) {
    e.Open? || e.SelfClosing?
  }

  /** What raises an error, the elements `open` being open after the events before. */
  ghost predicate Raises(error: TagError, before: seq<Event>, e: Event, open: seq<string>) {
    match error
    case MalformedTag => e.Malformed?
    case MismatchedClose => e.Close? && (open == [] || e.name != open[|open| - 1])
    case MultipleRoots => Begins(e) && open == [] && exists i :: 0 <= i < |before| && before[i].Close?
    case WrongRoot => Begins(e) && before == [] && e.name != "repair_order"
    case UnclosedTag => false
  }

  /** What the flags of the stack say of the events read. */
  ghost predicate Tells(st: State, before: seq<Event>) {
    && (st.stack != [] ==> !st.rootClosed)
    && (st.stack == [] ==> (st.rootClosed <==> exists i :: 0 <= i < |before| && before[i].Close?))
    && (st.rootName == "" ==> before == [] && st.stack == [])
    && (st.rootName == "" || st.rootName == ROOT_NAME)
  }

  lemma {:induction false} StepTells(st: State, before: seq<Event>, e: Event)
    requires Tells(st, before) && Step(st, e).Ok?
    ensures Tells(Step(st, e).value, before + [e])
  {
    assert (before + [e])[|before|] == e;
    if i :| 0 <= i < |before| && before[i].Close? {
      assert (before + [e])[i].Close?;
    }
  }

  lemma {:induction false} ClosingEmpties(st: State)
    ensures Run(st, Closing(st.stack)).Ok? && Run(st, Closing(st.stack)).value.stack == []
    decreases |st.stack|
  {
    if st.stack != [] {
      var rest := st.stack[..|st.stack| - 1];
      RunHead(st, Close(Top(st.stack)), Closing(rest));
      ClosingEmpties(State(rest, st.rootName, st.rootClosed || rest == []));
    }
  }

  lemma {:induction false} StackIsOpen(events: seq<Event>)
    requires Run(START, events).Ok?
    ensures LeavesOpen(events, Run(START, events).value.stack)
  {
    var st := Run(START, events).value;
    RunConcat(START, events, Closing(st.stack));
    ClosingEmpties(st);
    AcceptedIffDocument(events + Closing(st.stack));
  }

  lemma {:induction false} RunSnoc(before: seq<Event>, st: State, e: Event)
    requires Run(START, before) == Ok(st)
    ensures Run(START, before + [e]) == Step(st, e)
  {
    RunConcat(START, before, [e]);
    RunHead(st, e, []);
    assert [e] + [] == [e];
  }

  lemma {:induction false} RefusedAt(events: seq<Event>, n: nat)
    requires n < |events| && Run(START, events[..n]).Ok? && Step(Run(START, events[..n]).value, events[n]).Err?
    ensures Run(START, events) == Err(Step(Run(START, events[..n]).value, events[n]).error)
  {
    assert events == events[..n] + events[n..];
    RunConcat(START, events[..n], events[n..]);
  }

  /** The first event that is refused, from event n on. */
  lemma {:induction false} FirstRefused(events: seq<Event>, n: nat) returns (i: nat)
    requires n <= |events| && Run(START, events[..n]).Ok? && Tells(Run(START, events[..n]).value, events[..n])
    requires Run(START, events).Err?
    ensures i < |events| && Run(START, events[..i]).Ok? && Tells(Run(START, events[..i]).value, events[..i])
    ensures Step(Run(START, events[..i]).value, events[i]) == Err(Run(START, events).error)
    decreases |events| - n
  {
    i := n;
    assert events[..|events|] == events;
    if n < |events| {
      var st := Run(START, events[..n]).value;
      if Step(st, events[n]).Ok? {
        RunSnoc(events[..n], st, events[n]);
        StepTells(st, events[..n], events[n]);
        assert events[..n + 1] == events[..n] + [events[n]];
        i := FirstRefused(events, n + 1);
      } else {
        RefusedAt(events, n);
      }
    }
  }

  /** Every error has its reason: an unclosed tag means that elements are left open; any other error
      is raised at an event, and all that comes before it can be closed to a document. */
  lemma {:induction false} ErrorHasReason(events: seq<Event>) returns (i: nat, open: seq<string>)
    requires Verdict(events).Some?
    ensures
      var error := Verdict(events).value;
      if error == UnclosedTag then open != [] && LeavesOpen(events, open)
      else i < |events| && LeavesOpen(events[..i], open) && Raises(error, events[..i], events[i], open)
  {
    i := 0;
    if Run(START, events).Ok? {
      open := Run(START, events).value.stack;
      StackIsOpen(events);
    } else {
      assert events[..0] == [];
      i := FirstRefused(events, 0);
      open := Run(START, events[..i]).value.stack;
      StackIsOpen(events[..i]);
    }
  }
}
