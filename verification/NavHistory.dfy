/** The app's back and forward history: a list of entries with an index, kept in step with
    what is shown. It refines a zipper. */
module NavHistory {
  import opened Wrappers

  type Limit = n: nat | n > 0 witness 1

  const LIMIT: Limit := 50

  /** Two locations are the same when they serialize alike. */
  datatype Location = Chat(session: Option<string>) | Settings(section: string) | Elsewhere(view: string,
                           detail: string)

  // ---------------------------------------------------------------- the zipper

  datatype Zipper = Zipper(back: seq<Location>, current: Location, forward: seq<Location>)

  function LastOf(s: seq<Location>, n: nat): (r: seq<Location>)
    ensures |r| <= n && |r| <= |s|
  {
    if |s| <= n then s else s[|s| - n..]
  }

  function Show(z: Zipper, at: Location): Zipper {
    z.(current := at)
  }

  /** `None` is no limit at all. */
  function Kept(s: seq<Location>, limit: Option<Limit>): seq<Location> {
    match limit
    case Some(n) => LastOf(s, n - 1)
    case None => s
  }

  function Visit(z: Zipper, at: Location, limit: Option<Limit>): Zipper {
    if at == z.current then z else Zipper(Kept(z.back + [z.current], limit), at, [])
  }

  function Back(z: Zipper): Zipper {
    if z.back == [] then z
    else Zipper(z.back[..|z.back| - 1], z.back[|z.back| - 1], [z.current] + z.forward)
  }

  function Forward(z: Zipper): Zipper {
    if z.forward == [] then z
    else Zipper(z.back + [z.current], z.forward[0], z.forward[1..])
  }

  function RenamedAt(at: Location, from: string, to: string): Location {
    if at == Chat(Some(from)) then Chat(Some(to)) else at
  }

  function RenamedAll(s: seq<Location>, from: string, to: string): (r: seq<Location>)
    ensures |r| == |s| && forall i :: 0 <= i < |s| ==> r[i] == RenamedAt(s[i], from, to)
  {
    seq(|s|, i requires 0 <= i < |s| => RenamedAt(s[i], from, to))
  }

  function Renamed(z: Zipper, from: string, to: string): Zipper {
    Zipper(RenamedAll(z.back, from, to), RenamedAt(z.current, from, to), RenamedAll(z.forward, from, to))
  }

  predicate CameFrom(z: Zipper, session: string) {
    z.back != [] && z.back[|z.back| - 1] == Chat(Some(session))
  }

  /** From voice settings to the chat that asked for them: back to it, or in front of here. */
  function ReturnTo(z: Zipper, session: string): Zipper {
    if CameFrom(z, session) then Back(z) else Zipper(z.back, Chat(Some(session)), [z.current] + z.forward)
  }

  // ---------------------------------------------------------------- laws of the zipper

  lemma ForwardUndoesBack(z: Zipper)
    requires z.back != []
    ensures Forward(Back(z)) == z
  {
    assert z.back[..|z.back| - 1] + [z.back[|z.back| - 1]] == z.back;
    assert ([z.current] + z.forward)[1..] == z.forward;
  }

  lemma BackUndoesForward(z: Zipper)
    requires z.forward != []
    ensures Back(Forward(z)) == z
  {
    assert (z.back + [z.current])[..|z.back|] == z.back;
    assert [z.forward[0]] + z.forward[1..] == z.forward;
  }

  /** A new visit drops what was ahead, and going back from it leads where one was. */
  lemma BackUndoesVisit(z: Zipper, at: Location)
    requires at != z.current
    ensures var v := Back(Visit(z, at, Some(LIMIT))); v.current == z.current && v.forward == [at]
  {
  }

  /** Either way of returning shows the chat, and Forward leads back to the settings. */
  lemma ForwardUndoesReturn(z: Zipper, session: string)
    ensures ReturnTo(z, session).current == Chat(Some(session))
    ensures Forward(ReturnTo(z, session)).current == z.current && Forward(ReturnTo(z, session)).forward == z.forward
  {
    assert ([z.current] + z.forward)[1..] == z.forward;
  }

  /** Renaming a session does not care where one stands, and forgets the old name. */
  lemma RenameCommutes(z: Zipper, from: string, to: string)
    ensures Back(Renamed(z, from, to)) == Renamed(Back(z), from, to)
    ensures Forward(Renamed(z, from, to)) == Renamed(Forward(z), from, to)
    ensures from != to ==> var r := Renamed(z, from, to); Chat(Some(from)) !in r.back + [r.current] + r.forward
  {
    RenamedAppend(z.back, [z.current], from, to);
    RenamedAppend([z.current], z.forward, from, to);
    assert RenamedAll([z.current], from, to) == [RenamedAt(z.current, from, to)];
    if z.back != [] {
      assert RenamedAll(z.back, from, to)[..|z.back| - 1] == RenamedAll(z.back[..|z.back| - 1], from, to);
    }
    if z.forward != [] {
      assert RenamedAll(z.forward, from, to)[1..] == RenamedAll(z.forward[1..], from, to);
    }
  }

  lemma RenamedAppend(a: seq<Location>, b: seq<Location>, from: string, to: string)
    ensures RenamedAll(a + b, from, to) == RenamedAll(a, from, to) + RenamedAll(b, from, to)
  {
  }

  // ---------------------------------------------------------------- the list with an index

  /** `applying`: going back or forward has asked for a location that is not recorded yet.
      `replaceNext`: the next location recorded replaces the entry it leaves. */
  datatype Nav = Nav(zipper: Zipper, applying: bool, replaceNext: bool)

  /** A way back from settings: `alive` tells whether the chat is still there, unarchived. */
  datatype Origin = Origin(session: string, alive: bool)

  datatype Event =
    | Record(at: Location)
    | GoBack(voice: Option<Origin>, builder: Option<Origin>, allowed: bool)
    | GoForward(allowed: bool)
    | Rename(from: string, to: string)
    | ReturnToVoice(origin: Origin)
    | ReplaceNext(on: bool)

  function Recorded(n: Nav, at: Location, limit: Option<Limit>): Nav
  {
    if n.applying then Nav(Show(n.zipper, at), false, n.replaceNext)
    else if n.replaceNext then Nav(Show(n.zipper, at), false, false)
    else n.(zipper := Visit(n.zipper, at, limit))
  }

  function MovedBack(n: Nav): Nav {
    n.(zipper := Back(n.zipper))
  }

  function WentBack(n: Nav, allowed: bool): Nav {
    if !allowed || n.zipper.back == [] then n else MovedBack(n).(applying := true)
  }

  function WentForward(n: Nav, allowed: bool): Nav {
    if !allowed || n.zipper.forward == [] then n else n.(zipper := Forward(n.zipper), applying := true)
  }

  function Returns(n: Nav, voice: Origin): Nav {
    if voice.alive then n.(zipper := ReturnTo(n.zipper, voice.session)) else n
  }

  function Apply(n: Nav, e: Event, limit: Option<Limit>): Nav
  {
    match e
    case Record(at) => Recorded(n, at, limit)
    case GoBack(voice, builder, allowed) =>
      if voice.Some? && voice.value.alive then Returns(n, voice.value)
      else if builder.Some? && builder.value.alive && CameFrom(n.zipper, builder.value.session)
      then MovedBack(n)
      else WentBack(n, allowed)
    case GoForward(allowed) => WentForward(n, allowed)
    case Rename(from, to) => n.(zipper := Renamed(n.zipper, from, to))
    case ReturnToVoice(voice) => Returns(n, voice)
    case ReplaceNext(on) => n.(replaceNext := on)
  }

  function ApplyAll(n: Nav, es: seq<Event>, limit: Option<Limit>): Nav
    decreases |es|
  {
    if es == [] then n else ApplyAll(Apply(n, es[0], limit), es[1..], limit)
  }

  function Length(z: Zipper): nat {
    |z.back| + 1 + |z.forward|
  }

  // ---------------------------------------------------------------- what each event does

  function Entries(z: Zipper): seq<Location> {
    z.back + [z.current] + z.forward
  }

  function Index(z: Zipper): nat {
    |z.back|
  }

  ghost predicate SameFlags(n: Nav, m: Nav) {
    m.applying == n.applying && m.replaceNext == n.replaceNext
  }

  /** Forward, where it is allowed and something lies ahead, is one step on in the same list,
      and asks for that location to be applied; otherwise nothing happens. */
  lemma ForwardStepsOn(n: Nav, allowed: bool, limit: Option<Limit>)
    ensures var m := Apply(n, GoForward(allowed), limit);
            if allowed && Index(n.zipper) + 1 < |Entries(n.zipper)|
            then Entries(m.zipper) == Entries(n.zipper) && Index(m.zipper) == Index(n.zipper) + 1 && m.applying &&
                 m.replaceNext == n.replaceNext
            else m == n
  {
    if n.zipper.forward != [] {
      assert n.zipper.forward == [n.zipper.forward[0]] + n.zipper.forward[1..];
    }
  }

  lemma BackIsOneBack(z: Zipper)
    requires z.back != []
    ensures Entries(Back(z)) == Entries(z) && Index(Back(z)) == Index(z) - 1
  {
    assert z.back == z.back[..|z.back| - 1] + [z.back[|z.back| - 1]];
  }

  /** Back, with no way back from settings to take, likewise. */
  lemma BackStepsBack(n: Nav, allowed: bool, limit: Option<Limit>)
    ensures var m := Apply(n, GoBack(None, None, allowed), limit);
            if allowed && Index(n.zipper) > 0
            then Entries(m.zipper) == Entries(n.zipper) && Index(m.zipper) == Index(n.zipper) - 1 && m.applying &&
                 m.replaceNext == n.replaceNext
            else m == n
  {
    if n.zipper.back != [] {
      BackIsOneBack(n.zipper);
    }
  }

  /** Returning from voice settings to a chat that is there: one step back if that is where it
      is, else the chat is put in at this place and what was here pushed ahead; without
      asking for the location to be applied. To a chat that is gone: nothing. */
  lemma ReturnFindsOrInserts(n: Nav, voice: Origin, limit: Option<Limit>)
    ensures var m := Apply(n, ReturnToVoice(voice), limit);
            var es, i := Entries(n.zipper), Index(n.zipper);
            var chat := Chat(Some(voice.session));
            && SameFlags(n, m)
            && (if !voice.alive then m == n
                else if i > 0 && es[i - 1] == chat then Entries(m.zipper) == es && Index(m.zipper) == i - 1
                else Entries(m.zipper) == es[..i] + [chat] + es[i..] && Index(m.zipper) == i)
  {
    var es, i := Entries(n.zipper), Index(n.zipper);
    assert es[..i] == n.zipper.back && es[i..] == [n.zipper.current] + n.zipper.forward;
    if i > 0 {
      assert es[i - 1] == n.zipper.back[i - 1];
      BackIsOneBack(n.zipper);
    }
  }

  /** Back in settings: to the chat that asked for voice settings if there is one to return
      to, else to the builder's chat if one comes right from there, else plainly back. */
  lemma BackFromSettings(n: Nav, voice: Option<Origin>, builder: Option<Origin>, allowed: bool, limit: Option<Limit>)
    ensures var m := Apply(n, GoBack(voice, builder, allowed), limit);
            var es, i := Entries(n.zipper), Index(n.zipper);
            if voice.Some? && voice.value.alive then m == Apply(n, ReturnToVoice(voice.value), limit)
            else if builder.Some? && builder.value.alive && i > 0 && es[i - 1] == Chat(Some(builder.value.session))
            then Entries(m.zipper) == es && Index(m.zipper) == i - 1 && SameFlags(n, m)
            else m == Apply(n, GoBack(None, None, allowed), limit)
  {
    var es, i := Entries(n.zipper), Index(n.zipper);
    if i > 0 {
      assert es[i - 1] == n.zipper.back[i - 1];
      BackIsOneBack(n.zipper);
    }
  }

  /** Renaming changes exactly the chats of that session, and nothing moves. */
  lemma RenameChangesThoseChats(n: Nav, from: string, to: string, limit: Option<Limit>)
    ensures var m := Apply(n, Rename(from, to), limit);
            var es, fs := Entries(n.zipper), Entries(m.zipper);
            && SameFlags(n, m) && Index(m.zipper) == Index(n.zipper) && |fs| == |es|
            && forall i :: 0 <= i < |es| ==>
                 fs[i] == if es[i] == Chat(Some(from)) then Chat(Some(to)) else es[i]
  {
  }

  /** Forward undoes back, and back forward, as events too. */
  lemma ForwardEventUndoesBack(n: Nav, limit: Option<Limit>)
    requires n.zipper.back != []
    ensures Apply(Apply(n, GoBack(None, None, true), limit), GoForward(true), limit).zipper == n.zipper
  {
    ForwardUndoesBack(n.zipper);
  }

  lemma BackEventUndoesForward(n: Nav, limit: Option<Limit>)
    requires n.zipper.forward != []
    ensures Apply(Apply(n, GoForward(true), limit), GoBack(None, None, true), limit).zipper == n.zipper
  {
    BackUndoesForward(n.zipper);
  }

  /** Recording: while a location is being applied, or one is to be replaced, the current entry
      takes the location and the flag is spent; else a new location is put behind the
      entries up to here, of which at most forty-nine are kept. */
  lemma RecordingShowsReplacesOrVisits(n: Nav, at: Location)
    ensures var m := Apply(n, Record(at), Some(LIMIT));
            var es, i := Entries(n.zipper), Index(n.zipper);
            if n.applying then Entries(m.zipper) == es[i := at] && Index(m.zipper) == i && !m.applying &&
                               m.replaceNext == n.replaceNext
            else if n.replaceNext then
              Entries(m.zipper) == es[i := at] && Index(m.zipper) == i && !m.applying && !m.replaceNext
            else if es[i] == at then m == n
            else
              var all := es[..i + 1] + [at];
              && Entries(m.zipper) == (if |all| > 50 then all[|all| - 50..] else all)
              && Index(m.zipper) == |Entries(m.zipper)| - 1 && SameFlags(n, m)
  {
    var z := n.zipper;
    var es, i := Entries(z), Index(z);
    assert es[..i + 1] == z.back + [z.current];
    assert es[i] == z.current;
  }

  lemma ReplaceNextSetsTheFlag(n: Nav, on: bool, limit: Option<Limit>)
    ensures var m := Apply(n, ReplaceNext(on), limit);
            m.zipper == n.zipper && m.applying == n.applying && m.replaceNext == on
  {
  }

  /** After a recording the current entry is the location recorded, and an entry is added
      exactly when nothing is being applied or replaced and the location is new; then what
      was ahead is gone. */
  lemma RecordShowsTheLocation(n: Nav, at: Location)
    ensures var m := Recorded(n, at, Some(LIMIT));
            && m.zipper.current == at && !m.applying
            && (m.zipper.back != n.zipper.back || m.zipper.forward != n.zipper.forward ==>
                  !n.applying && !n.replaceNext && at != n.zipper.current && m.zipper.forward == [] &&
                      Length(m.zipper) <= LIMIT)
            && (!n.applying && !n.replaceNext && at != n.zipper.current ==>
                  m.zipper.back == LastOf(n.zipper.back + [n.zipper.current], LIMIT - 1) && m.zipper.forward == [])
  {
  }

  // ---------------------------------------------------------------- the limit only forgets

  predicate MayInsert(e: Event) {
    e.ReturnToVoice? || (e.GoBack? && e.voice.Some?)
  }

  function Inserts(es: seq<Event>): nat {
    if es == [] then 0 else (if MayInsert(es[0]) then 1 else 0) + Inserts(es[1..])
  }

  /** Only a return from voice settings can take the list over the limit, by one each time. */
  lemma {:induction false} LengthIsBounded(n: Nav, es: seq<Event>)
    ensures Length(ApplyAll(n, es, Some(LIMIT)).zipper) <=
            (if Length(n.zipper) <= 50 then 50 else Length(n.zipper)) + Inserts(es)
    decreases |es|
  {
    if es != [] {
      var m := Apply(n, es[0], Some(LIMIT));
      assert Length(m.zipper) <= LIMIT || Length(m.zipper) <= Length(n.zipper) + (if MayInsert(es[0]) then 1 else 0);
      LengthIsBounded(m, es[1..]);
    }
  }

  predicate IsSuffix(a: seq<Location>, b: seq<Location>) {
    |a| <= |b| && b[|b| - |a|..] == a
  }

  /** `n` is `full` but for some of the oldest entries. */
  predicate Forgets(n: Nav, full: Nav) {
    && IsSuffix(n.zipper.back, full.zipper.back)
    && n.zipper.current == full.zipper.current && n.zipper.forward == full.zipper.forward
    && n.applying == full.applying && n.replaceNext == full.replaceNext
  }

  /** No event looks behind the oldest entry left where there was more. */
  predicate LooksInside(n: Nav, full: Nav, e: Event) {
    e.GoBack? || e.ReturnToVoice? ==> n.zipper.back != [] || full.zipper.back == []
  }

  predicate StaysInside(n: Nav, full: Nav, es: seq<Event>)
    decreases |es|
  {
    es != [] ==>
      LooksInside(n, full, es[0]) && StaysInside(Apply(n, es[0], Some(LIMIT)), Apply(full, es[0], None), es[1..])
  }

  lemma BackForgets(n: Nav, full: Nav)
    requires Forgets(n, full) && (n.zipper.back != [] || full.zipper.back == [])
    ensures Forgets(MovedBack(n), MovedBack(full))
    ensures forall session :: CameFrom(n.zipper, session) <==> CameFrom(full.zipper, session)
  {
    var a, b := n.zipper.back, full.zipper.back;
    if a != [] {
      assert b[|b| - |a|..][|a| - 1] == b[|b| - 1];
      assert b[..|b| - 1][|b| - |a|..] == b[|b| - |a|..][..|a| - 1];
    }
  }

  lemma ReturnForgets(n: Nav, full: Nav, origin: Origin)
    requires Forgets(n, full) && (n.zipper.back != [] || full.zipper.back == [])
    ensures Forgets(Returns(n, origin), Returns(full, origin))
  {
    BackForgets(n, full);
    assert CameFrom(n.zipper, origin.session) <==> CameFrom(full.zipper, origin.session);
  }

  lemma GoBackForgets(n: Nav, full: Nav, e: Event)
    requires Forgets(n, full) && LooksInside(n, full, e) && e.GoBack?
    ensures Forgets(Apply(n, e, Some(LIMIT)), Apply(full, e, None))
  {
    BackForgets(n, full);
    if e.voice.Some? && e.voice.value.alive {
      ReturnForgets(n, full, e.voice.value);
    } else if e.builder.Some? {
      assert CameFrom(n.zipper, e.builder.value.session) <==> CameFrom(full.zipper, e.builder.value.session);
    }
  }

  lemma RecordForgets(n: Nav, full: Nav, at: Location)
    requires Forgets(n, full)
    ensures Forgets(Recorded(n, at, Some(LIMIT)), Recorded(full, at, None))
  {
    var a, b := n.zipper.back, full.zipper.back;
    assert (b + [full.zipper.current])[|b| - |a|..] == a + [n.zipper.current];
  }

  lemma RenameForgets(n: Nav, full: Nav, from: string, to: string)
    requires Forgets(n, full)
    ensures Forgets(n.(zipper := Renamed(n.zipper, from, to)), full.(zipper := Renamed(full.zipper, from, to)))
  {
    var a, b := n.zipper.back, full.zipper.back;
    assert RenamedAll(b, from, to)[|b| - |a|..] == RenamedAll(a, from, to);
  }

  lemma ForwardForgets(n: Nav, full: Nav, allowed: bool)
    requires Forgets(n, full)
    ensures Forgets(WentForward(n, allowed), WentForward(full, allowed))
  {
    var a, b := n.zipper.back, full.zipper.back;
    assert (b + [full.zipper.current])[|b| - |a|..] == a + [n.zipper.current];
  }

  lemma StepForgets(n: Nav, full: Nav, e: Event)
    requires Forgets(n, full) && LooksInside(n, full, e)
    ensures Forgets(Apply(n, e, Some(LIMIT)), Apply(full, e, None))
  {
    match e
    case Record(at) => RecordForgets(n, full, at);
    case GoBack(_, _, _) => GoBackForgets(n, full, e);
    case GoForward(allowed) => ForwardForgets(n, full, allowed);
    case Rename(from, to) => RenameForgets(n, full, from, to);
    case ReturnToVoice(origin) => ReturnForgets(n, full, origin);
    case ReplaceNext(_) =>
  }

  /** The limit only ever forgets the oldest entries: under every mix of events, as long as
      none of them looks behind the oldest entry left, the history is the unlimited one but
      for its oldest entries. */
  lemma {:induction false} LimitOnlyForgets(n: Nav, full: Nav, es: seq<Event>)
    requires Forgets(n, full) && StaysInside(n, full, es)
    ensures Forgets(ApplyAll(n, es, Some(LIMIT)), ApplyAll(full, es, None))
    decreases |es|
  {
    if es != [] {
      StepForgets(n, full, es[0]);
      LimitOnlyForgets(Apply(n, es[0], Some(LIMIT)), Apply(full, es[0], None), es[1..]);
    }
  }

  /** The places visited, without immediate repetitions. */
  function Trail(start: Location, visits: seq<Location>): (r: seq<Location>)
    ensures r != []
  {
    if visits == [] then [start]
    else if visits[|visits| - 1] == Trail(start, visits[..|visits| - 1])[|Trail(start, visits[..|visits| - 1])| - 1]
    then Trail(start, visits[..|visits| - 1])
    else Trail(start, visits[..|visits| - 1]) + [visits[|visits| - 1]]
  }

  function Recordings(visits: seq<Location>): (r: seq<Event>)
    ensures |r| == |visits|
  {
    seq(|visits|, i requires 0 <= i < |visits| => Record(visits[i]))
  }

  lemma {:induction false} ApplyAllAppend(n: Nav, es: seq<Event>, e: Event, limit: Option<Limit>)
    ensures ApplyAll(n, es + [e], limit) == Apply(ApplyAll(n, es, limit), e, limit)
    decreases |es|
  {
    if es == [] {
      assert [e][1..] == [];
    } else {
      assert (es + [e])[1..] == es[1..] + [e];
      ApplyAllAppend(Apply(n, es[0], limit), es[1..], e, limit);
    }
  }

  /** Recorded navigations alone leave the last fifty places visited, the last one shown. */
  lemma {:induction false} LastVisitsAreKept(start: Location, visits: seq<Location>)
    ensures var n := ApplyAll(Nav(Zipper([], start, []), false, false), Recordings(visits), Some(LIMIT));
            && !n.applying && !n.replaceNext && n.zipper.forward == []
            && n.zipper.back + [n.zipper.current] == LastOf(Trail(start, visits), 50)
    decreases |visits|
  {
    if visits != [] {
      var before, at := visits[..|visits| - 1], visits[|visits| - 1];
      LastVisitsAreKept(start, before);
      assert Recordings(visits) == Recordings(before) + [Record(at)];
      ApplyAllAppend(Nav(Zipper([], start, []), false, false), Recordings(before), Record(at), Some(LIMIT));
      var m := ApplyAll(Nav(Zipper([], start, []), false, false), Recordings(before), Some(LIMIT));
      OneMoreVisit(m.zipper, Trail(start, before), at);
    }
  }

  lemma OneMoreVisit(z: Zipper, trail: seq<Location>, at: Location)
    requires trail != [] && z.forward == [] && z.back + [z.current] == LastOf(trail, LIMIT)
    ensures z.current == trail[|trail| - 1]
    ensures var v := Visit(z, at, Some(LIMIT));
            v.forward == [] && v.back + [v.current] == LastOf(if at == z.current then trail else trail + [at], LIMIT)
  {
    assert (z.back + [z.current])[|z.back|] == LastOf(trail, LIMIT)[|z.back|];
    assert LastOf(trail + [at], LIMIT) == LastOf(LastOf(trail, LIMIT), LIMIT - 1) + [at];
  }

  // ---------------------------------------------------------------- the shell's list and index

  class NavigationHistory {
    var entries: seq<Location>
    var index: nat
    var applying: bool
    var replaceNext: bool
    var canGoBack: bool
    var canGoForward: bool

    predicate Valid()
      reads this
    {
      index < |entries| && (canGoBack <==> index > 0) && (canGoForward <==> index < |entries| - 1)
    }

    function Model(): Nav
      requires Valid()
      reads this
    {
      Nav(Zipper(entries[..index], entries[index], entries[index + 1..]), applying, replaceNext)
    }

    constructor (initial: Location)
      ensures Valid() && Model() == Nav(Zipper([], initial, []), false, false)
    {
      entries, index, applying, replaceNext, canGoBack, canGoForward := [initial], 0, false, false, false, false;
    }

    method UpdateNavigationAvailability()
      requires index < |entries|
      modifies this`canGoBack, this`canGoForward
      ensures Valid()
    {
      canGoBack, canGoForward := index > 0, index < |entries| - 1;
    }

    /** The effect that runs when the shown location changes. */
    method OnTargetLocation(location: Location)
      requires Valid()
      modifies this
      ensures Valid() && Model() == Apply(old(Model()), Record(location), Some(LIMIT))
    {
      var current := entries[index];
      if applying {
        applying := false;
        if current != location {
          entries := entries[index := location];
        }
      } else if replaceNext {
        replaceNext := false;
        entries := entries[index := location];
      } else if current != location {
        var next := entries[..index + 1] + [location];
        assert entries[..index + 1] == entries[..index] + [current];
        if |next| > LIMIT {
          assert next[|next| - LIMIT..] == LastOf(entries[..index] + [current], LIMIT - 1) + [location];
          next := next[|next| - LIMIT..];
        }
        entries, index := next, |next| - 1;
      }
      UpdateNavigationAvailability();
    }

    method ReplaceNavigationSessionId(from: string, to: string)
      requires Valid()
      modifies this
      ensures Valid() && Model() == Apply(old(Model()), Rename(from, to), Some(LIMIT))
    {
      entries := RenamedAll(entries, from, to);
      UpdateNavigationAvailability();
      assert entries[..index] == RenamedAll(old(entries)[..index], from, to);
      assert entries[index + 1..] == RenamedAll(old(entries)[index + 1..], from, to);
    }

    method ReturnToVoiceSettingsTarget(voice: Origin) returns (returned: bool)
      requires Valid()
      modifies this
      ensures Valid() && returned == voice.alive
      ensures Model() == Apply(old(Model()), ReturnToVoice(voice), Some(LIMIT))
    {
      if !voice.alive {
        return false;
      }
      if index > 0 && entries[index - 1] == Chat(Some(voice.session)) {
        MoveBack();
      } else {
        InsertHere(Chat(Some(voice.session)));
      }
      return true;
    }

    /** The new entry takes the current one's place and pushes it ahead. */
    method InsertHere(location: Location)
      requires Valid()
      modifies this
      ensures Valid()
      ensures var z := old(Model()).zipper;
              Model() == old(Model()).(zipper := Zipper(z.back, location, [z.current] + z.forward))
    {
      entries := entries[..index] + [location] + entries[index..];
      UpdateNavigationAvailability();
      assert entries[..index] == old(entries)[..index] && entries[index] == location;
      assert entries[index + 1..] == [old(entries)[index]] + old(entries)[index + 1..];
    }

    method MoveBack()
      requires Valid() && index > 0
      modifies this
      ensures Valid() && Model() == MovedBack(old(Model()))
    {
      index := index - 1;
      UpdateNavigationAvailability();
      assert old(entries[..index])[..index] == entries[..index];
      assert [entries[index + 1]] + entries[index + 2..] == entries[index + 1..];
    }

    method GoBack(voice: Option<Origin>, builder: Option<Origin>, allowed: bool)
      requires Valid()
      modifies this
      ensures Valid() && Model() == Apply(old(Model()), Event.GoBack(voice, builder, allowed), Some(LIMIT))
      ensures voice.None? && builder.None? ==>
                && entries == old(entries)
                && (if allowed && old(index) > 0 then index == old(index) - 1 && applying
                    else index == old(index) && applying == old(applying))
    {
      if voice.Some? {
        var returned := ReturnToVoiceSettingsTarget(voice.value);
        if returned {
          return;
        }
      }
      if builder.Some? && index > 0 && entries[index - 1] == Chat(Some(builder.value.session)) && builder.value.alive {
        MoveBack();
        return;
      }
      if !allowed || index == 0 {
        return;
      }
      MoveBack();
      applying := true;
    }

    method GoForward(allowed: bool)
      requires Valid()
      modifies this
      ensures Valid() && Model() == Apply(old(Model()), Event.GoForward(allowed), Some(LIMIT))
      ensures entries == old(entries)
      ensures if allowed && old(index) + 1 < |entries| then index == old(index) + 1 && applying
              else index == old(index) && applying == old(applying)
    {
      if !allowed || index >= |entries| - 1 {
        return;
      }
      index := index + 1;
      applying := true;
      UpdateNavigationAvailability();
      assert entries[..index] == entries[..index - 1] + [entries[index - 1]];
      assert entries[index..][1..] == entries[index + 1..];
    }
  }
}
