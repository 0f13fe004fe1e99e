/**
 * The thread-response normaliser shared by the `start_thread` and
 * `continue_thread` tools: from the interactions of a thread it builds the
 * answer text. The answer starts with the message of the last action of the
 * latest interaction that has one (or a fixed default); the first non-empty
 * plan, code and code output of that interaction's actions are appended, each
 * under its heading and only while its heading is not yet in the text; and the
 * artifact identifiers of every action of every interaction are listed at the
 * end, in order.
 *
 * The methods follow the loops of the tools; each is proved against a
 * function (`LastMessage`, `Fill`, `AllArtifacts`, `Answer`) whose properties
 * are proved as lemmas.
 */
module Normaliser {
  import opened Wrappers
  import opened Text

  /**
   * One assistant action. A field that is absent, `None` or empty is `""`
   * (all three are falsy to the tools); `code` is the text the tools print for it.
   */
  datatype Action = Action(message: string, plan: string, code: string, codeOutput: string,
                           artifacts: seq<string>)

  /** One user turn of a thread, with its assistant actions in order. */
  datatype Interaction = Interaction(actions: seq<Action>)

  const DefaultAnswer := "No answer received from PromptQL."

  // ---------------------------------------------------------------------------
  // Choosing the message
  // ---------------------------------------------------------------------------

  /** `i` is the highest index whose action carries a non-empty message. */
  ghost predicate IsLastMessage(actions: seq<Action>, i: int)
  {
    && 0 <= i < |actions|
    && HasText(actions[i].message)
    && forall j :: i < j < |actions| ==> !HasText(actions[j].message)
  }

  ghost predicate NoMessage(actions: seq<Action>)
  {
    forall j :: 0 <= j < |actions| ==> !HasText(actions[j].message)
  }

  /** The message the answer starts with: the latest non-empty one, else the default. */
  function LastMessage(actions: seq<Action>): string
  {
    if |actions| == 0 then DefaultAnswer
    else if HasText(actions[|actions| - 1].message) then actions[|actions| - 1].message
    else LastMessage(actions[..|actions| - 1])
  }

  /**
   * The chosen message is the default when no action has a message, and
   * otherwise the message at the highest index that has one; earlier messages
   * are never chosen.
   */
  lemma {:induction false} LastMessageIsLatest(actions: seq<Action>)
    ensures NoMessage(actions) ==> LastMessage(actions) == DefaultAnswer
    ensures !NoMessage(actions) ==> exists i :: IsLastMessage(actions, i) && LastMessage(actions) == actions[i].message
    ensures forall i :: IsLastMessage(actions, i) ==> LastMessage(actions) == actions[i].message
  {
    if |actions| > 0 {
      var n := |actions| - 1;
      if HasText(actions[n].message) {
        assert IsLastMessage(actions, n);
        forall i | IsLastMessage(actions, i) ensures i == n {
        }
      } else {
        LastMessageIsLatest(actions[..n]);
        SilentLast(actions);
      }
    }
  }

  /** A last action without a message changes neither the choice nor which index supplies it. */
  lemma SilentLast(actions: seq<Action>)
    requires |actions| > 0 && !HasText(actions[|actions| - 1].message)
    ensures var init := actions[..|actions| - 1];
            && LastMessage(actions) == LastMessage(init)
            && (NoMessage(actions) <==> NoMessage(init))
            && (forall i :: IsLastMessage(actions, i) <==> IsLastMessage(init, i))
            && (forall i :: IsLastMessage(init, i) ==> actions[i] == init[i])
  {
    var n := |actions| - 1;
    var init := actions[..n];
    assert forall j :: 0 <= j < n ==> init[j] == actions[j];
  }

  /** The reversed scan of the tools: the first action from the end with a message wins. */
  method ChooseMessage(actions: seq<Action>) returns (answer: string)
    ensures answer == LastMessage(actions)
  {
    answer := DefaultAnswer;
    var i := |actions|;
    assert actions[..i] == actions;
    while i > 0
      invariant 0 <= i <= |actions|
      invariant LastMessage(actions[..i]) == LastMessage(actions)
    {
      i := i - 1;
      assert actions[..i + 1][..i] == actions[..i];
      if HasText(actions[i].message) {
        answer := actions[i].message;
        break;
      }
    }
  }

  // ---------------------------------------------------------------------------
  // Appending plan, code and code output
  // ---------------------------------------------------------------------------

  datatype Kind = Plan | Code | Output

  function Marker(k: Kind): string
  {
    match k
    case Plan => "**Execution Plan:**"
    case Code => "**Executed Code:**"
    case Output => "**Code Output:**"
  }

  /** A section the text may receive: its kind and its body. */
  datatype Section = Section(kind: Kind, body: string)

  function Field(a: Action, k: Kind): string
  {
    match k
    case Plan => a.plan
    case Code => a.code
    case Output => a.codeOutput
  }

  /** The field of kind `k` of each action, in order. */
  function Fields(actions: seq<Action>, k: Kind): (r: seq<string>)
    ensures |r| == |actions|
    ensures forall i :: 0 <= i < |actions| ==> r[i] == Field(actions[i], k)
  {
    if actions == [] then [] else [Field(actions[0], k)] + Fields(actions[1..], k)
  }

  /** What one action offers, in the order the tools test it: plan, code, code output. */
  function Offered(a: Action): seq<Section>
  {
    [Section(Plan, a.plan), Section(Code, a.code), Section(Output, a.codeOutput)]
  }

  /** What all the actions offer, action by action. */
  function Offers(actions: seq<Action>): seq<Section>
  {
    if actions == [] then [] else Offered(actions[0]) + Offers(actions[1..])
  }

  /** The text the tools append for a section. */
  function Render(s: Section): string
  {
    "\n\n" + Marker(s.kind) + "\n" + s.body
  }

  function RenderAll(ss: seq<Section>): string
  {
    if ss == [] then "" else Render(ss[0]) + RenderAll(ss[1..])
  }

  /** The guard of each append: a non-empty body whose heading is not yet in the text. */
  predicate Admits(text: string, s: Section)
  {
    HasText(s.body) && !Contains(text, Marker(s.kind))
  }

  /** One guarded append. */
  function Offer(text: string, s: Section): string
  {
    if Admits(text, s) then text + Render(s) else text
  }

  /** The text after offering each section in turn. */
  function Fill(text: string, ss: seq<Section>): string
    decreases ss
  {
    if ss == [] then text else Fill(Offer(text, ss[0]), ss[1..])
  }

  /** The sections that `Fill` appends, in order. */
  ghost function Chosen(text: string, ss: seq<Section>): seq<Section>
    decreases ss
  {
    if ss == [] then []
    else if Admits(text, ss[0]) then [ss[0]] + Chosen(text + Render(ss[0]), ss[1..])
    else Chosen(text, ss[1..])
  }

  /** The bodies of the sections of kind `k`, in order. */
  function Bodies(ss: seq<Section>, k: Kind): seq<string>
  {
    if ss == [] then []
    else (if ss[0].kind == k then [ss[0].body] else []) + Bodies(ss[1..], k)
  }

  /** `i` is the first index with a non-empty string. */
  ghost predicate IsFirstText(bodies: seq<string>, i: int)
  {
    0 <= i < |bodies| && HasText(bodies[i]) && forall j :: 0 <= j < i ==> !HasText(bodies[j])
  }

  /** The first non-empty string, if any. */
  function FirstText(bodies: seq<string>): (r: Option<string>)
    ensures r.None? <==> forall j :: 0 <= j < |bodies| ==> !HasText(bodies[j])
    ensures r.Some? ==> exists i :: IsFirstText(bodies, i) && r.value == bodies[i]
  {
    if bodies == [] then None
    else if HasText(bodies[0]) then
      assert IsFirstText(bodies, 0);
      Some(bodies[0])
    else
      var r := FirstText(bodies[1..]);
      FirstTextSkip(bodies, r);
      r
  }

  lemma FirstTextSkip(bodies: seq<string>, r: Option<string>)
    requires bodies != [] && !HasText(bodies[0])
    requires r.None? <==> forall j :: 0 <= j < |bodies[1..]| ==> !HasText(bodies[1..][j])
    requires r.Some? ==> exists i :: IsFirstText(bodies[1..], i) && r.value == bodies[1..][i]
    ensures r.None? <==> forall j :: 0 <= j < |bodies| ==> !HasText(bodies[j])
    ensures r.Some? ==> exists i :: IsFirstText(bodies, i) && r.value == bodies[i]
  {
    assert forall j :: 1 <= j < |bodies| ==> bodies[j] == bodies[1..][j - 1];
    if r.Some? {
      var i :| IsFirstText(bodies[1..], i) && r.value == bodies[1..][i];
      assert IsFirstText(bodies, i + 1);
    }
  }

  lemma {:induction false} FillAppend(text: string, a: seq<Section>, b: seq<Section>)
    ensures Fill(text, a + b) == Fill(Fill(text, a), b)
    decreases a
  {
    if a == [] {
      assert a + b == b;
    } else {
      assert (a + b)[0] == a[0];
      assert (a + b)[1..] == a[1..] + b;
      FillAppend(Offer(text, a[0]), a[1..], b);
    }
  }

  /** Offering one action's sections is the three guarded appends in turn. */
  lemma FillOffered(text: string, a: Action)
    ensures Fill(text, Offered(a))
         == Offer(Offer(Offer(text, Section(Plan, a.plan)), Section(Code, a.code)), Section(Output, a.codeOutput))
  {
    var p, c, out := Section(Plan, a.plan), Section(Code, a.code), Section(Output, a.codeOutput);
    assert Offered(a) == [p, c, out];
    assert [p, c, out][0] == p && [p, c, out][1..] == [c, out];
    assert [c, out][0] == c && [c, out][1..] == [out];
    assert [out][0] == out && [out][1..] == [];
    var t1 := Offer(text, p);
    var t2 := Offer(t1, c);
    var t3 := Offer(t2, out);
    assert Fill(t3, []) == t3;
    assert Fill(t2, [out]) == t3;
    assert Fill(t1, [c, out]) == t3;
    assert Fill(text, [p, c, out]) == t3;
  }

  lemma RenderAllCons(s: Section, rest: seq<Section>)
    ensures RenderAll([s] + rest) == Render(s) + RenderAll(rest)
  {
    assert ([s] + rest)[1..] == rest;
  }

  /** One admitted section: `Fill` and `Chosen` both take it, and the rest follows. */
  lemma FillIsChosenStep(text: string, ss: seq<Section>)
    requires ss != [] && Admits(text, ss[0])
    requires Fill(text + Render(ss[0]), ss[1..])
          == text + Render(ss[0]) + RenderAll(Chosen(text + Render(ss[0]), ss[1..]))
    ensures Fill(text, ss) == text + RenderAll(Chosen(text, ss))
  {
    var rest := Chosen(text + Render(ss[0]), ss[1..]);
    RenderAllCons(ss[0], rest);
    Regroup(text, Render(ss[0]), RenderAll(rest));
  }

  lemma Regroup(a: string, b: string, c: string)
    ensures a + b + c == a + (b + c)
  {
  }

  lemma Regroup4(a: string, b: string, c: string, d: string)
    ensures a + b + c + d == a + (b + c + d)
  {
  }

  lemma Regroup5(a: string, b: string, c: string, d: string, e: string)
    ensures a + (b + c + d + e) == a + b + c + (d + e)
  {
  }

  /** `Fill` appends exactly the rendered `Chosen` sections to the text. */
  lemma {:induction false} FillIsChosen(text: string, ss: seq<Section>)
    ensures Fill(text, ss) == text + RenderAll(Chosen(text, ss))
    decreases ss
  {
    if ss != [] {
      if Admits(text, ss[0]) {
        FillIsChosen(text + Render(ss[0]), ss[1..]);
        FillIsChosenStep(text, ss);
      } else {
        FillIsChosen(text, ss[1..]);
      }
    }
  }

  /** The text is only ever extended. */
  lemma FillExtends(text: string, ss: seq<Section>)
    ensures IsPrefix(text, Fill(text, ss))
  {
    FillIsChosen(text, ss);
  }

  /** While a heading is in the text, no section of its kind is appended. */
  lemma {:induction false} HeadingBlocks(text: string, ss: seq<Section>, k: Kind)
    requires Contains(text, Marker(k))
    ensures Bodies(Chosen(text, ss), k) == []
    decreases ss
  {
    if ss != [] {
      if Admits(text, ss[0]) {
        ContainsExtended(text, Render(ss[0]), Marker(k));
        HeadingBlocks(text + Render(ss[0]), ss[1..], k);
        BodiesAppend([ss[0]], Chosen(text + Render(ss[0]), ss[1..]), k);
      } else {
        HeadingBlocks(text, ss[1..], k);
      }
    }
  }

  lemma {:induction false} BodiesAppend(a: seq<Section>, b: seq<Section>, k: Kind)
    ensures Bodies(a + b, k) == Bodies(a, k) + Bodies(b, k)
  {
    if a == [] {
      assert a + b == b;
    } else {
      assert (a + b)[0] == a[0];
      assert (a + b)[1..] == a[1..] + b;
      BodiesAppend(a[1..], b, k);
    }
  }

  /** Appending a section puts its heading in the text. */
  lemma RenderHasHeading(text: string, s: Section)
    ensures Contains(text + Render(s), Marker(s.kind))
  {
    Regroup5(text, "\n\n", Marker(s.kind), "\n", s.body);
    ContainsInserted(text + "\n\n", Marker(s.kind), "\n" + s.body);
  }

  /**
   * Each kind of section is appended at most once, and when it is, its body
   * is the first non-empty body of that kind on offer.
   */
  lemma {:induction false} ChosenOnce(text: string, ss: seq<Section>, k: Kind)
    ensures |Bodies(Chosen(text, ss), k)| <= 1
    ensures forall b :: b in Bodies(Chosen(text, ss), k) ==> FirstText(Bodies(ss, k)) == Some(b)
    decreases ss
  {
    if ss != [] {
      var s := ss[0];
      var chosen := Chosen(text, ss);
      assert Bodies(ss, k) == (if s.kind == k then [s.body] else []) + Bodies(ss[1..], k);
      if Admits(text, s) {
        var rest := Chosen(text + Render(s), ss[1..]);
        BodiesAppend([s], rest, k);
        if s.kind == k {
          RenderHasHeading(text, s);
          HeadingBlocks(text + Render(s), ss[1..], k);
          assert Bodies(chosen, k) == [s.body];
        } else {
          ChosenOnce(text + Render(s), ss[1..], k);
          assert Bodies(chosen, k) == Bodies(rest, k);
        }
      } else if s.kind == k && HasText(s.body) {
        HeadingBlocks(text, ss[1..], k);
      } else {
        ChosenOnce(text, ss[1..], k);
        assert Chosen(text, ss) == Chosen(text, ss[1..]);
        if s.kind == k {
          var bodies := Bodies(ss, k);
          assert bodies == [s.body] + Bodies(ss[1..], k);
          assert bodies != [] && bodies[0] == s.body && !HasText(bodies[0]);
          assert bodies[1..] == Bodies(ss[1..], k);
          assert FirstText(bodies) == FirstText(Bodies(ss[1..], k));
        } else {
          assert Bodies(ss, k) == [] + Bodies(ss[1..], k) == Bodies(ss[1..], k);
        }
      }
    }
  }

  /** When some section of kind `k` has a body, the final text holds its heading. */
  lemma {:induction false} HeadingPresent(text: string, ss: seq<Section>, k: Kind)
    requires FirstText(Bodies(ss, k)).Some?
    ensures Contains(Fill(text, ss), Marker(k))
    decreases ss
  {
    var s := ss[0];
    var next := Offer(text, s);
    if s.kind == k && HasText(s.body) {
      if Admits(text, s) {
        RenderHasHeading(text, s);
      }
      assert Contains(next, Marker(k));
      FillExtends(next, ss[1..]);
      var fin := Fill(next, ss[1..]);
      assert fin == next + fin[|next|..];
      ContainsExtended(next, fin[|next|..], Marker(k));
    } else {
      if s.kind == k {
        assert Bodies(ss, k) == [s.body] + Bodies(ss[1..], k);
        assert Bodies(ss, k)[1..] == Bodies(ss[1..], k);
      } else {
        assert Bodies(ss, k) == Bodies(ss[1..], k);
      }
      assert FirstText(Bodies(ss, k)) == FirstText(Bodies(ss[1..], k));
      HeadingPresent(next, ss[1..], k);
    }
  }

  /** The bodies of kind `k` that the actions offer are the actions' fields of kind `k`. */
  lemma {:induction false} BodiesOfOffers(actions: seq<Action>, k: Kind)
    ensures Bodies(Offers(actions), k) == Fields(actions, k)
  {
    if actions != [] {
      BodiesAppend(Offered(actions[0]), Offers(actions[1..]), k);
      BodiesOfOffers(actions[1..], k);
      var a := actions[0];
      var p, c, out := Section(Plan, a.plan), Section(Code, a.code), Section(Output, a.codeOutput);
      assert Offered(a) == [p, c, out];
      assert [p, c, out][0] == p && [p, c, out][1..] == [c, out];
      assert [c, out][0] == c && [c, out][1..] == [out];
      assert [out][0] == out && [out][1..] == [];
      assert Bodies([out], k) == (if k == Output then [a.codeOutput] else []);
      assert Bodies([c, out], k) == (if k == Code then [a.code] else []) + Bodies([out], k);
      assert Bodies([p, c, out], k) == (if k == Plan then [a.plan] else []) + Bodies([c, out], k);
      assert Bodies(Offered(a), k) == [Field(a, k)];
      assert Fields(actions, k) == [Field(a, k)] + Fields(actions[1..], k);
    }
  }

  /**
   * The section properties in terms of the actions: the text after the
   * appends starts with `text`; each section kind is appended at most once; its
   * body is the field of the first action with that field non-empty; nothing
   * of a kind is appended when its heading was already in `text`; and when some
   * action has that field the final text holds the heading.
   */
  lemma SectionsOfActions(text: string, actions: seq<Action>, k: Kind)
    ensures Fill(text, Offers(actions)) == text + RenderAll(Chosen(text, Offers(actions)))
    ensures |Bodies(Chosen(text, Offers(actions)), k)| <= 1
    ensures forall b :: b in Bodies(Chosen(text, Offers(actions)), k) ==> FirstText(Fields(actions, k)) == Some(b)
    ensures Contains(text, Marker(k)) ==> Bodies(Chosen(text, Offers(actions)), k) == []
    ensures FirstText(Fields(actions, k)).Some? ==> Contains(Fill(text, Offers(actions)), Marker(k))
  {
    FillIsChosen(text, Offers(actions));
    ChosenOnce(text, Offers(actions), k);
    BodiesOfOffers(actions, k);
    if Contains(text, Marker(k)) {
      HeadingBlocks(text, Offers(actions), k);
    }
    if FirstText(Fields(actions, k)).Some? {
      HeadingPresent(text, Offers(actions), k);
    }
  }

  /** One turn of the forward scan: the three guarded appends of action `i`, then the rest. */
  lemma FillStep(text: string, actions: seq<Action>, i: nat)
    requires i < |actions|
    ensures Fill(text, Offers(actions[i..]))
         == Fill(Offer(Offer(Offer(text, Section(Plan, actions[i].plan)), Section(Code, actions[i].code)),
                       Section(Output, actions[i].codeOutput)),
                 Offers(actions[i + 1..]))
  {
    assert actions[i..][0] == actions[i] && actions[i..][1..] == actions[i + 1..];
    FillAppend(text, Offered(actions[i]), Offers(actions[i + 1..]));
    FillOffered(text, actions[i]);
  }

  /** The forward scan of the tools: plan, code and code output of each action, under their guards. */
  method AppendSections(message: string, actions: seq<Action>) returns (text: string)
    ensures text == Fill(message, Offers(actions))
  {
    text := message;
    var i := 0;
    while i < |actions|
      invariant 0 <= i <= |actions|
      invariant Fill(text, Offers(actions[i..])) == Fill(message, Offers(actions))
    {
      var action := actions[i];
      FillStep(text, actions, i);
      ghost var t0 := text;
      var plan := Section(Plan, action.plan);
      if HasText(plan.body) && !Contains(text, Marker(Plan)) {
        text := text + Render(plan);
      }
      assert text == Offer(t0, plan);
      ghost var t1 := text;
      var code := Section(Code, action.code);
      if HasText(code.body) && !Contains(text, Marker(Code)) {
        text := text + Render(code);
      }
      assert text == Offer(t1, code);
      ghost var t2 := text;
      var codeOutput := Section(Output, action.codeOutput);
      if HasText(codeOutput.body) && !Contains(text, Marker(Output)) {
        text := text + Render(codeOutput);
      }
      assert text == Offer(t2, codeOutput);
      i := i + 1;
    }
  }

  // ---------------------------------------------------------------------------
  // Artifact identifiers
  // ---------------------------------------------------------------------------

  function ActionArtifacts(actions: seq<Action>): seq<string>
  {
    if actions == [] then [] else ActionArtifacts(actions[..|actions| - 1]) + actions[|actions| - 1].artifacts
  }

  /** The artifact identifiers of every action of every interaction, in order. */
  function AllArtifacts(interactions: seq<Interaction>): seq<string>
  {
    if interactions == [] then []
    else AllArtifacts(interactions[..|interactions| - 1]) + ActionArtifacts(interactions[|interactions| - 1].actions)
  }

  /** The nested loop of the tools, extending the list in place. */
  method CollectArtifacts(interactions: seq<Interaction>) returns (found: seq<string>)
    ensures found == AllArtifacts(interactions)
  {
    found := [];
    for i := 0 to |interactions|
      invariant found == AllArtifacts(interactions[..i])
    {
      var actions := interactions[i].actions;
      for j := 0 to |actions|
        invariant found == AllArtifacts(interactions[..i]) + ActionArtifacts(actions[..j])
      {
        var identifiers := actions[j].artifacts;
        if |identifiers| > 0 {
          found := found + identifiers;
        }
        assert actions[..j + 1][..j] == actions[..j];
      }
      assert actions[..|actions|] == actions;
      assert interactions[..i + 1][..i] == interactions[..i];
    }
    assert interactions[..|interactions|] == interactions;
  }

  /** Concatenating threads concatenates their artifact lists: order is preserved. */
  lemma {:induction false} AllArtifactsAppend(a: seq<Interaction>, b: seq<Interaction>)
    ensures AllArtifacts(a + b) == AllArtifacts(a) + AllArtifacts(b)
  {
    if b == [] {
      assert a + b == a;
    } else {
      var init := b[..|b| - 1];
      assert (a + b)[..|a + b| - 1] == a + init;
      assert (a + b)[|a + b| - 1] == b[|b| - 1];
      AllArtifactsAppend(a, init);
    }
  }

  lemma {:induction false} ActionArtifactsMember(actions: seq<Action>, x: string)
    ensures x in ActionArtifacts(actions) <==> exists j :: 0 <= j < |actions| && x in actions[j].artifacts
  {
    if actions != [] {
      var init := actions[..|actions| - 1];
      ActionArtifactsMember(init, x);
      assert forall j :: 0 <= j < |init| ==> init[j] == actions[j];
    }
  }

  /** Some action of some interaction lists `x` among its artifact identifiers. */
  ghost predicate Carries(interactions: seq<Interaction>, x: string)
  {
    exists i, j :: 0 <= i < |interactions| && 0 <= j < |interactions[i].actions|
                && x in interactions[i].actions[j].artifacts
  }

  lemma CarriesSnoc(init: seq<Interaction>, last: Interaction, x: string)
    ensures Carries(init + [last], x) <==>
            Carries(init, x) || exists j :: 0 <= j < |last.actions| && x in last.actions[j].artifacts
  {
    var s := init + [last];
    if Carries(s, x) {
      var i, j :| 0 <= i < |s| && 0 <= j < |s[i].actions| && x in s[i].actions[j].artifacts;
      if i < |init| {
        assert s[i] == init[i];
      } else {
        assert s[i] == last;
      }
    }
    if Carries(init, x) {
      var i, j :| 0 <= i < |init| && 0 <= j < |init[i].actions| && x in init[i].actions[j].artifacts;
      assert s[i] == init[i];
    } else if exists j :: 0 <= j < |last.actions| && x in last.actions[j].artifacts {
      var j :| 0 <= j < |last.actions| && x in last.actions[j].artifacts;
      assert s[|init|] == last;
    }
  }

  /** An identifier is listed iff some action of some interaction carries it. */
  lemma {:induction false} AllArtifactsMember(interactions: seq<Interaction>, x: string)
    ensures x in AllArtifacts(interactions) <==> Carries(interactions, x)
  {
    if interactions != [] {
      var n := |interactions| - 1;
      var init := interactions[..n];
      AllArtifactsMember(init, x);
      ActionArtifactsMember(interactions[n].actions, x);
      assert interactions == init + [interactions[n]];
      CarriesSnoc(init, interactions[n], x);
    }
  }

  // ---------------------------------------------------------------------------
  // The answer text
  // ---------------------------------------------------------------------------

  const ArtifactsHeading := "\n\n**Artifacts Generated:** "
  const FutureNote := "\n\n*Note: Artifact data fetching will be implemented in a future update.*"

  function LatestActions(interactions: seq<Interaction>): seq<Action>
  {
    if interactions == [] then [] else interactions[|interactions| - 1].actions
  }

  /** The answer before the artifact line: message and sections of the latest interaction. */
  function AnswerBody(interactions: seq<Interaction>): string
  {
    var actions := LatestActions(interactions);
    Fill(LastMessage(actions), Offers(actions))
  }

  /** The artifact line (with the future-update note when `withNote`), present iff `found` is non-empty. */
  function ArtifactLine(found: seq<string>, withNote: bool): string
  {
    if found == [] then "" else ArtifactsHeading + Join(found, ", ") + (if withNote then FutureNote else "")
  }

  /** The answer text of a tool; `withNote` is set by `start_thread` only. */
  function Answer(interactions: seq<Interaction>, withNote: bool): string
  {
    AnswerBody(interactions) + ArtifactLine(AllArtifacts(interactions), withNote)
  }

  /** The normalisation code of the tools. */
  method Normalise(interactions: seq<Interaction>, withNote: bool) returns (answer: string)
    ensures answer == Answer(interactions, withNote)
  {
    answer := DefaultAnswer;
    if |interactions| > 0 {
      var latest := interactions[|interactions| - 1];
      var actions := latest.actions;
      if |actions| > 0 {
        answer := ChooseMessage(actions);
        answer := AppendSections(answer, actions);
      }
    }
    var found := CollectArtifacts(interactions);
    ghost var body := answer;
    if |found| > 0 {
      answer := answer + ArtifactsHeading + Join(found, ", ");
      if withNote {
        answer := answer + FutureNote;
        Regroup4(body, ArtifactsHeading, Join(found, ", "), FutureNote);
      } else {
        Regroup(body, ArtifactsHeading + Join(found, ", "), "");
      }
    } else {
      assert answer == body + "";
    }
  }

  /** The answer starts with the chosen message: the text is only ever extended. */
  lemma AnswerExtendsMessage(interactions: seq<Interaction>, withNote: bool)
    ensures IsPrefix(LastMessage(LatestActions(interactions)), Answer(interactions, withNote))
  {
    var actions := LatestActions(interactions);
    FillExtends(LastMessage(actions), Offers(actions));
    PrefixExtended(LastMessage(actions), AnswerBody(interactions), ArtifactLine(AllArtifacts(interactions), withNote));
  }

  /** The answer starts with the message of the last action of the latest interaction that has one. */
  lemma AnswerStartsWithLatestMessage(interactions: seq<Interaction>, withNote: bool, i: nat)
    requires IsLastMessage(LatestActions(interactions), i)
    ensures IsPrefix(LatestActions(interactions)[i].message, Answer(interactions, withNote))
  {
    LastMessageIsLatest(LatestActions(interactions));
    AnswerExtendsMessage(interactions, withNote);
  }

  /** With no interactions, or no message in the latest one, the answer starts with the default. */
  lemma AnswerStartsWithDefault(interactions: seq<Interaction>, withNote: bool)
    requires interactions == [] || NoMessage(LatestActions(interactions))
    ensures IsPrefix(DefaultAnswer, Answer(interactions, withNote))
  {
    LastMessageIsLatest(LatestActions(interactions));
    AnswerExtendsMessage(interactions, withNote);
  }

  /**
   * Earlier interactions contribute only identifiers to the artifact line: the
   * answer is the latest interaction's own body, followed by the artifacts of
   * the earlier ones and then its own.
   */
  lemma EarlierInteractionsOnlyAddArtifacts(earlier: seq<Interaction>, latest: Interaction, withNote: bool)
    ensures Answer(earlier + [latest], withNote)
         == AnswerBody([latest]) + ArtifactLine(AllArtifacts(earlier) + AllArtifacts([latest]), withNote)
  {
    AllArtifactsAppend(earlier, [latest]);
  }

  /** Only `start_thread` adds the note, and only after a non-empty artifact line. */
  lemma NoteOnlyWithArtifacts(interactions: seq<Interaction>)
    ensures Answer(interactions, true)
         == Answer(interactions, false) + (if AllArtifacts(interactions) == [] then "" else FutureNote)
    ensures AllArtifacts(interactions) == [] ==> Answer(interactions, true) == AnswerBody(interactions)
  {
    var body, found := AnswerBody(interactions), AllArtifacts(interactions);
    if found == [] {
      assert Answer(interactions, true) == body + "";
      assert Answer(interactions, false) == body + "";
    } else {
      var listing := ArtifactsHeading + Join(found, ", ");
      assert ArtifactLine(found, true) == listing + FutureNote;
      assert ArtifactLine(found, false) == listing + "";
      assert body + (listing + FutureNote) == (body + (listing + "")) + FutureNote;
    }
  }

  /** The artifact line is present iff the list is non-empty, and lists every identifier. */
  lemma ArtifactLineLists(found: seq<string>, withNote: bool)
    ensures ArtifactLine(found, withNote) == "" <==> found == []
    ensures forall x :: x in found ==> Contains(ArtifactLine(found, withNote), x)
  {
    forall x | x in found
      ensures Contains(ArtifactLine(found, withNote), x)
    {
      JoinContains(found, ", ", x);
      var line := ArtifactLine(found, withNote);
      ContainsPrefixed(ArtifactsHeading, Join(found, ", "), x);
      ContainsExtended(ArtifactsHeading + Join(found, ", "), if withNote then FutureNote else "", x);
      assert line == ArtifactsHeading + Join(found, ", ") + (if withNote then FutureNote else "");
    }
  }

  /** Every item occurs in the joined text. */
  lemma {:induction false} JoinContains(items: seq<string>, sep: string, x: string)
    requires x in items
    ensures Contains(Join(items, sep), x)
  {
    if |items| == 1 {
      ContainsInserted("", x, "");
      assert "" + x + "" == x;
    } else if x == items[0] {
      ContainsInserted("", x, sep + Join(items[1..], sep));
      assert "" + x + (sep + Join(items[1..], sep)) == Join(items, sep);
    } else {
      JoinContains(items[1..], sep, x);
      ContainsPrefixed(items[0] + sep, Join(items[1..], sep), x);
      assert (items[0] + sep) + Join(items[1..], sep) == Join(items, sep);
    }
  }
}
