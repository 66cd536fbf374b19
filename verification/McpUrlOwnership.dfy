/** Who owns the persisted MCP URL (internal/app/auth_command.go). Two files of the
    configuration directory say so: `mcp_url` holds the URL, and the marker repeats it
    while a login region manages it. Every read, write and removal may fail, and the
    process may stop before or after any of them; a file is written by renaming over it,
    so a write happens as a whole or not at all. */
module McpUrlOwnership {
  import opened Collections
  import opened GoStrings

  /** The contents of the two files, if they exist. */
  datatype Files = Files(url: Option<string>, marker: Option<string>)

  /** The kind of login: an explicit URL, an international region or the default one. */
  datatype Mode = Explicit | Managed | Default

  datatype Outcome = Finished | Failed | Stopped

  /** What becomes of a file operation. */
  datatype Fate = Succeeds | Fails | Stops(applied: bool)

  datatype Fates = Fates(readMarker: Fate, readUrl: Fate, writeMarker: Fate, writeUrl: Fate, removeMarker: Fate)

  datatype Login = Login(mode: Mode, value: string, fates: Fates)

  predicate Applied(fate: Fate) {
    fate.Succeeds? || (fate.Stops? && fate.applied)
  }

  /** The marker repeats the URL, up to surrounding space. */
  predicate Owned(f: Files) {
    f.url.Some? && f.marker.Some? && TrimSpace(f.url.value) == TrimSpace(f.marker.value)
  }

  /** There is a URL that no region manages: somebody's own choice. */
  predicate Unowned(f: Files) {
    f.url.Some? && !Owned(f)
  }

  // What a login should do

  datatype Action = WriteMarker(value: string) | WriteUrl(value: string) | RemoveMarker

  function Apply(f: Files, a: Action): Files {
    match a
    case WriteMarker(value) => f.(marker := Some(value))
    case WriteUrl(value) => f.(url := Some(value))
    case RemoveMarker => f.(marker := None)
  }

  function FateOf(a: Action, fates: Fates): Fate {
    match a
    case WriteMarker(_) => fates.writeMarker
    case WriteUrl(_) => fates.writeUrl
    case RemoveMarker => fates.removeMarker
  }

  /** Removing a marker that is not there cannot fail: the file system says that it does
      not exist, which is what was wanted. */
  function RemovalFate(f: Files, fate: Fate): Fate {
    if f.marker.None? && fate.Fails? then Succeeds else fate
  }

  /** The fate of a change where it is made. */
  function FateOn(f: Files, a: Action, fates: Fates): Fate {
    if a.RemoveMarker? then RemovalFate(f, fates.removeMarker) else FateOf(a, fates)
  }

  /** The changes a login makes, given the files. */
  function Plan(f: Files, mode: Mode, value: string): seq<Action> {
    match mode
    case Explicit => [RemoveMarker, WriteUrl(value)]
    case Managed =>
      if Unowned(f) then (if f.marker.None? then [] else [RemoveMarker])
      else [WriteMarker(value), WriteUrl(value)]
    case Default =>
      if f.marker.None? then []
      else if Owned(f) then [WriteUrl(value), RemoveMarker]
      else [RemoveMarker]
  }

  /** A step of a login that did not go on. */
  function Cut(f: Files, fate: Fate, applied: Files): (Files, Outcome)
    requires !fate.Succeeds?
  {
    if fate.Fails? then (f, Failed) else (if fate.applied then applied else f, Stopped)
  }

  /** Carries out changes until one does not succeed. A failed write of the URL takes the
      marker back when `undo` says so. */
  function Carry(f: Files, actions: seq<Action>, undo: bool, fates: Fates): (Files, Outcome)
    decreases |actions|
  {
    if actions == [] then (f, Finished)
    else
      var a := actions[0];
      var fate := FateOn(f, a, fates);
      if fate.Succeeds? then Carry(Apply(f, a), actions[1..], undo, fates)
      else if fate.Fails? && a.WriteUrl? && undo then
        (if Applied(fates.removeMarker) then Apply(f, RemoveMarker) else f,
         if fates.removeMarker.Stops? then Stopped else Failed)
      else Cut(f, fate, Apply(f, a))
  }

  /** The reads before the changes: the marker, and the URL where it matters. */
  function Reads(f: Files, mode: Mode, fates: Fates): Outcome {
    if mode.Explicit? then Finished
    else if fates.readMarker.Fails? then Failed
    else if fates.readMarker.Stops? then Stopped
    else if mode.Default? && f.marker.None? then Finished
    else if fates.readUrl.Fails? then Failed
    else if fates.readUrl.Stops? then Stopped
    else Finished
  }

  /** The files and the outcome after a login. */
  function After(f: Files, login: Login): (Files, Outcome) {
    if !Reads(f, login.mode, login.fates).Finished? then (f, Reads(f, login.mode, login.fates))
    else Carry(f, Plan(f, login.mode, login.value), login.mode.Managed?, login.fates)
  }

  /** What a login that finishes leaves: an explicit URL is nobody's but the caller's, a
      region takes the URL over unless it is somebody's own, and the default region
      restores only a URL that was managed. */
  function Settled(f: Files, mode: Mode, value: string): Files {
    match mode
    case Explicit => Files(Some(value), None)
    case Managed => if Unowned(f) then Files(f.url, None) else Files(Some(value), Some(value))
    case Default => if Owned(f) then Files(Some(value), None) else Files(f.url, None)
  }

  // The code

  class ConfigDir {
    var url: Option<string>
    var marker: Option<string>

    constructor (url: Option<string>, marker: Option<string>)
      ensures View() == Files(url, marker)
    {
      this.url, this.marker := url, marker;
    }

    function View(): Files
      reads this
    {
      Files(url, marker)
    }

    method WriteMarkerFile(value: string, fate: Fate)
      modifies this`marker
      ensures View() == if Applied(fate) then Apply(old(View()), WriteMarker(value)) else old(View())
    {
      if Applied(fate) {
        marker := Some(value);
      }
    }

    method WriteUrlFile(value: string, fate: Fate)
      modifies this`url
      ensures View() == if Applied(fate) then Apply(old(View()), WriteUrl(value)) else old(View())
    {
      if Applied(fate) {
        url := Some(value);
      }
    }

    /** Removes the marker. That it is already gone is no failure. */
    method RemoveMarkerFile(fate: Fate) returns (outcome: Outcome)
      modifies this`marker
      ensures View() == if Applied(fate) then Apply(old(View()), RemoveMarker) else old(View())
      ensures old(marker).None? && !fate.Stops? ==> outcome.Finished?
      ensures outcome.Finished? ==> marker.None?
      ensures outcome == Ended(RemovalFate(old(View()), fate))
    {
      var missing := marker.None?;
      if Applied(fate) {
        marker := None;
      }
      if fate.Fails? && !missing {
        return Failed;
      }
      outcome := if fate.Stops? then Stopped else Finished;
    }

    /** Persists the URL of a login. */
    method Persist(login: Login) returns (outcome: Outcome)
      modifies this
      ensures (View(), outcome) == After(old(View()), login)
    {
      var Login(mode, value, fates) := login;
      match mode {
        case Explicit =>
          outcome := PersistExplicit(value, fates);
        case Managed =>
          outcome := PersistManaged(value, fates);
        case Default =>
          outcome := PersistDefault(value, fates);
      }
    }

    method PersistExplicit(value: string, fates: Fates) returns (outcome: Outcome)
      modifies this
      ensures (View(), outcome) == After(old(View()), Login(Explicit, value, fates))
    {
      CarryTwo(View(), RemoveMarker, WriteUrl(value), false, fates);
      outcome := RemoveMarkerFile(fates.removeMarker);
      if !outcome.Finished? {
        return;
      }
      WriteUrlFile(value, fates.writeUrl);
      outcome := Ended(fates.writeUrl);
    }

    method PersistManaged(value: string, fates: Fates) returns (outcome: Outcome)
      modifies this
      ensures (View(), outcome) == After(old(View()), Login(Managed, value, fates))
    {
      if !fates.readMarker.Succeeds? {
        return Ended(fates.readMarker);
      }
      if !fates.readUrl.Succeeds? {
        return Ended(fates.readUrl);
      }
      if url.Some? && marker.None? {
        return Finished;
      }
      if url.Some? && TrimSpace(url.value) != TrimSpace(marker.value) {
        CarryOne(View(), RemoveMarker, true, fates);
        outcome := RemoveMarkerFile(fates.removeMarker);
        return;
      }
      CarryTwo(View(), WriteMarker(value), WriteUrl(value), true, fates);
      WriteMarkerFile(value, fates.writeMarker);
      if !fates.writeMarker.Succeeds? {
        return Ended(fates.writeMarker);
      }
      WriteUrlFile(value, fates.writeUrl);
      if fates.writeUrl.Fails? {
        outcome := RemoveMarkerFile(fates.removeMarker);
        if outcome.Stopped? {
          return;
        }
        return Failed;
      }
      outcome := Ended(fates.writeUrl);
    }

    method PersistDefault(value: string, fates: Fates) returns (outcome: Outcome)
      modifies this
      ensures (View(), outcome) == After(old(View()), Login(Default, value, fates))
    {
      if !fates.readMarker.Succeeds? {
        return Ended(fates.readMarker);
      }
      if marker.None? {
        return Finished;
      }
      if !fates.readUrl.Succeeds? {
        return Ended(fates.readUrl);
      }
      if url.None? || TrimSpace(url.value) != TrimSpace(marker.value) {
        CarryOne(View(), RemoveMarker, false, fates);
        outcome := RemoveMarkerFile(fates.removeMarker);
        return;
      }
      CarryTwo(View(), WriteUrl(value), RemoveMarker, false, fates);
      WriteUrlFile(value, fates.writeUrl);
      if !fates.writeUrl.Succeeds? {
        return Ended(fates.writeUrl);
      }
      outcome := RemoveMarkerFile(fates.removeMarker);
    }
  }

  function Ended(fate: Fate): Outcome {
    match fate
    case Succeeds => Finished
    case Fails => Failed
    case Stops(_) => Stopped
  }

  lemma CarryOne(f: Files, a: Action, undo: bool, fates: Fates)
    requires !a.WriteUrl?
    ensures Carry(f, [a], undo, fates) ==
            (if Applied(FateOn(f, a, fates)) then Apply(f, a) else f, Ended(FateOn(f, a, fates)))
  {
    assert Carry(Apply(f, a), [a][1..], undo, fates) == (Apply(f, a), Finished);
  }

  lemma CarryTwo(f: Files, a: Action, b: Action, undo: bool, fates: Fates)
    requires !a.WriteUrl? || !undo
    ensures Carry(f, [a, b], undo, fates) ==
            if FateOn(f, a, fates).Succeeds? then Carry(Apply(f, a), [b], undo, fates)
            else Cut(f, FateOn(f, a, fates), Apply(f, a))
  {
    assert [a, b][1..] == [b];
  }

  // What a login can leave behind

  /** Unfolds the changes of a login. */
  lemma PlanUnfolds(f: Files, value: string, undo: bool, fates: Fates)
    ensures Carry(f, [RemoveMarker], undo, fates) ==
            (if Applied(fates.removeMarker) then Apply(f, RemoveMarker) else f, Ended(FateOn(f, RemoveMarker, fates)))
    ensures Carry(f, [RemoveMarker, WriteUrl(value)], undo, fates) ==
            if FateOn(f, RemoveMarker, fates).Succeeds? then
              Carry(Apply(f, RemoveMarker), [WriteUrl(value)], undo, fates)
            else Cut(f, fates.removeMarker, Apply(f, RemoveMarker))
    ensures Carry(f, [WriteMarker(value), WriteUrl(value)], undo, fates) ==
            if fates.writeMarker.Succeeds? then Carry(Apply(f, WriteMarker(value)), [WriteUrl(value)], undo, fates)
            else Cut(f, fates.writeMarker, Apply(f, WriteMarker(value)))
    ensures Carry(f, [WriteUrl(value), RemoveMarker], false, fates) ==
            if fates.writeUrl.Succeeds? then Carry(Apply(f, WriteUrl(value)), [RemoveMarker], false, fates)
            else Cut(f, fates.writeUrl, Apply(f, WriteUrl(value)))
  {
    CarryOne(f, RemoveMarker, undo, fates);
    CarryTwo(f, RemoveMarker, WriteUrl(value), undo, fates);
    CarryTwo(f, WriteMarker(value), WriteUrl(value), undo, fates);
    CarryTwo(f, WriteUrl(value), RemoveMarker, false, fates);
  }

  /** A login that finishes does exactly what it should. */
  lemma FinishedIsSettled(f: Files, login: Login)
    requires After(f, login).1.Finished?
    ensures After(f, login).0 == Settled(f, login.mode, login.value)
  {
    PlanUnfolds(f, login.value, login.mode.Managed?, login.fates);
    PlanUnfolds(Apply(f, WriteUrl(login.value)), login.value, false, login.fates);
  }

  /** Where a login for a managed region leaves a URL it may take over. */
  lemma ManagedLeaves(f: Files, value: string, fates: Fates)
    requires !Unowned(f)
    ensures
      var after := After(f, Login(Managed, value, fates)).0;
      if !fates.readMarker.Succeeds? || !fates.readUrl.Succeeds? || !Applied(fates.writeMarker) then after == f
      else if !fates.writeMarker.Succeeds? then after == Files(f.url, Some(value))
      else if Applied(fates.writeUrl) then after == Files(Some(value), Some(value))
      else if fates.writeUrl.Fails? && Applied(fates.removeMarker) then after == Files(f.url, None)
      else after == Files(f.url, Some(value))
  {
    PlanUnfolds(f, value, true, fates);
  }

  /** Where a login for the default region leaves a managed URL. */
  lemma DefaultLeaves(f: Files, value: string, fates: Fates)
    requires Owned(f)
    ensures
      var after := After(f, Login(Default, value, fates)).0;
      if !fates.readMarker.Succeeds? || !fates.readUrl.Succeeds? || !Applied(fates.writeUrl) then after == f
      else if fates.writeUrl.Succeeds? && Applied(fates.removeMarker) then after == Files(Some(value), None)
      else after == Files(Some(value), f.marker)
  {
    PlanUnfolds(f, value, false, fates);
    PlanUnfolds(Apply(f, WriteUrl(value)), value, false, fates);
  }

  /** A login for the default region changes no URL that is not managed, and makes nothing
      managed. */
  lemma DefaultLeavesOthers(f: Files, value: string, fates: Fates)
    requires !Owned(f)
    ensures
      var after := After(f, Login(Default, value, fates)).0;
      after == f || after == Files(f.url, None)
  {
    PlanUnfolds(f, value, false, fates);
  }

  /** No region login, however it ends, changes a URL that is somebody's own, or makes it
      a managed one. */
  lemma UnownedIsKept(f: Files, login: Login)
    requires Unowned(f) && !login.mode.Explicit?
    ensures After(f, login).0.url == f.url && Unowned(After(f, login).0)
  {
    PlanUnfolds(f, login.value, login.mode.Managed?, login.fates);
  }

  /** A region login changes the URL only to its own value, and only where there is none or
      a managed one. */
  lemma UrlChangesOnlyIfManaged(f: Files, login: Login)
    requires !login.mode.Explicit? && After(f, login).0.url != f.url
    ensures After(f, login).0.url == Some(login.value) && !Unowned(f)
    ensures login.mode.Default? ==> Owned(f)
  {
    if Unowned(f) {
      UnownedIsKept(f, login);
    } else if login.mode.Managed? {
      ManagedLeaves(f, login.value, login.fates);
    } else if Owned(f) {
      DefaultLeaves(f, login.value, login.fates);
    } else {
      DefaultLeavesOthers(f, login.value, login.fates);
    }
  }

  // Whole runs

  /** The files after a sequence of logins. */
  function AfterAll(f: Files, logins: seq<Login>): Files {
    if logins == [] then f else After(AfterAll(f, logins[..|logins| - 1]), logins[|logins| - 1]).0
  }

  /** Over any sequence of region logins, each of which may fail or stop anywhere, a URL
      that is somebody's own stays as it is and stays theirs. */
  lemma {:induction false} UnownedIsKeptOverRuns(f: Files, logins: seq<Login>)
    requires Unowned(f) && forall i | 0 <= i < |logins| :: !logins[i].mode.Explicit?
    ensures AfterAll(f, logins).url == f.url && Unowned(AfterAll(f, logins))
  {
    if logins != [] {
      var last := |logins| - 1;
      UnownedIsKeptOverRuns(f, logins[..last]);
      UnownedIsKept(AfterAll(f, logins[..last]), logins[last]);
    }
  }

  /** An explicit choice, once a login has settled it, outlives all region logins. */
  lemma {:induction false} ExplicitChoiceStays(f: Files, choice: Login, logins: seq<Login>)
    requires choice.mode.Explicit? && After(f, choice).1.Finished?
    requires forall i | 0 <= i < |logins| :: !logins[i].mode.Explicit?
    ensures AfterAll(After(f, choice).0, logins).url == Some(choice.value)
  {
    FinishedIsSettled(f, choice);
    UnownedIsKeptOverRuns(After(f, choice).0, logins);
  }

  // Where ownership is lost

  /** The marker gets written and the URL does not, and the marker is then taken back or
      names another URL. */
  predicate Loses(f: Files, value: string, fates: Fates)
    requires Owned(f)
  {
    && fates.readMarker.Succeeds? && fates.readUrl.Succeeds?
    && Applied(fates.writeMarker) && !(fates.writeMarker.Succeeds? && Applied(fates.writeUrl))
    && (TrimSpace(f.url.value) != TrimSpace(value)
        || (fates.writeMarker.Succeeds? && fates.writeUrl.Fails? && Applied(fates.removeMarker)))
  }

  /** A login for a managed region turns a managed URL into one that counts as somebody's
      own exactly when its operations fare like that. The URL is then frozen, by
      UnownedIsKeptOverRuns. */
  lemma ManagedLosesOwnershipIff(f: Files, value: string, fates: Fates)
    requires Owned(f)
    ensures Unowned(After(f, Login(Managed, value, fates)).0) <==> Loses(f, value, fates)
  {
    ManagedLeaves(f, value, fates);
  }

  /** A refresh whose URL cannot be written: the marker is taken back, and the URL the
      region had put there counts as somebody's own. */
  lemma FailedRefreshLosesOwnership()
    ensures
      var fates := Fates(Succeeds, Succeeds, Succeeds, Fails, Succeeds);
      var f := Files(Some("a"), Some("a"));
      && Owned(f)
      && After(f, Login(Managed, "b", fates)).0 == Files(Some("a"), None)
      && Settled(Files(Some("a"), None), Managed, "b") != Settled(f, Managed, "b")
  {
    var fates := Fates(Succeeds, Succeeds, Succeeds, Fails, Succeeds);
    ManagedLeaves(Files(Some("a"), Some("a")), "b", fates);
  }

  /** Where there is no URL yet, a login for a managed region never makes one that counts
      as somebody's own. */
  lemma FirstLoginKeepsOwnership(f: Files, value: string, fates: Fates)
    requires f.url.None?
    ensures !Unowned(After(f, Login(Managed, value, fates)).0)
  {
    ManagedLeaves(f, value, fates);
  }

  /** After a login that failed or was stopped, the same login done again leaves what it
      would have left in the first place, except exactly where ownership is lost. */
  lemma RetryReachesIff(f: Files, login: Login)
    ensures
      Settled(After(f, login).0, login.mode, login.value) == Settled(f, login.mode, login.value) <==>
      !(login.mode.Managed? && Owned(f) && Loses(f, login.value, login.fates))
  {
    var Login(mode, value, fates) := login;
    match mode {
      case Explicit =>
      case Managed =>
        if Unowned(f) {
          UnownedIsKept(f, login);
        } else {
          ManagedLeaves(f, value, fates);
          if Owned(f) {
            ManagedLosesOwnershipIff(f, value, fates);
          }
        }
      case Default =>
        if Owned(f) {
          DefaultLeaves(f, value, fates);
        } else {
          DefaultLeavesOthers(f, value, fates);
        }
    }
  }

  /** Switching to a region and back leaves the default URL as somebody's own, so that no
      later region login, of any number, changes it again. */
  lemma {:induction false} SwitchingBackIsFinal(f: Files, region: Login, back: Login, later: seq<Login>)
    requires region.mode.Managed? && back.mode.Default? && !Unowned(f)
    requires After(f, region).1.Finished? && After(After(f, region).0, back).1.Finished?
    requires forall i | 0 <= i < |later| :: !later[i].mode.Explicit?
    ensures AfterAll(After(After(f, region).0, back).0, later).url == Some(back.value)
  {
    FinishedIsSettled(f, region);
    FinishedIsSettled(After(f, region).0, back);
    UnownedIsKeptOverRuns(After(After(f, region).0, back).0, later);
  }

  /** What a login that finishes does, case by case. */
  lemma FinishedLoginsDo(f: Files, login: Login)
    requires After(f, login).1 == Finished
    ensures
      var url, marker := After(f, login).0.url, After(f, login).0.marker;
      match login.mode
      case Explicit => url == Some(login.value) && marker == None
      case Managed =>
        if f.url != None && (f.marker == None || TrimSpace(f.url.value) != TrimSpace(f.marker.value))
        then url == f.url && marker == None
        else url == Some(login.value) && marker == Some(login.value)
      case Default =>
        && marker == None
        && if f.url != None && f.marker != None && TrimSpace(f.url.value) == TrimSpace(f.marker.value)
           then url == Some(login.value)
           else url == f.url
  {
    FinishedIsSettled(f, login);
  }

  predicate AnyFails(fates: Fates) {
    || fates.readMarker == Fails || fates.readUrl == Fails || fates.writeMarker == Fails
    || fates.writeUrl == Fails || fates.removeMarker == Fails
  }

  predicate AnyStops(fates: Fates) {
    || fates.readMarker.Stops? || fates.readUrl.Stops? || fates.writeMarker.Stops?
    || fates.writeUrl.Stops? || fates.removeMarker.Stops?
  }

  /** A login fails only if an operation did, is stopped only if the process was, and
      finishes if all goes well. */
  lemma OutcomeTells(f: Files, login: Login)
    ensures After(f, login).1 == Failed ==> AnyFails(login.fates)
    ensures After(f, login).1 == Stopped ==> AnyStops(login.fates)
    ensures login.fates == Fates(Succeeds, Succeeds, Succeeds, Succeeds, Succeeds) ==> After(f, login).1 == Finished
  {
    PlanUnfolds(f, login.value, login.mode.Managed?, login.fates);
    PlanUnfolds(Apply(f, WriteUrl(login.value)), login.value, false, login.fates);
  }

  /** Where an explicit login leaves the files: the marker goes first, so its URL is never
      taken for a managed one. */
  lemma ExplicitLeaves(f: Files, value: string, fates: Fates)
    ensures
      var after := After(f, Login(Explicit, value, fates)).0;
      if f.marker != None && !Applied(fates.removeMarker) then after == f
      else if fates.removeMarker.Stops? || !Applied(fates.writeUrl) then after == Files(f.url, None)
      else after == Files(Some(value), None)
  {
    PlanUnfolds(f, value, false, fates);
  }
}
