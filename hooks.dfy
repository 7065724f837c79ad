/** The decision the hook installed by `set_hooks` takes when a panic reaches
    it (src/lib.rs:126-154). The process-wide hook slot is not modelled; a hook
    is a value that remembers the hook it took over. */
module Hooks {
  import opened Wrappers
  import opened Panic

  /** What a panic carried: a `UserPanic` (the payload `downcast_ref::<UserPanic>`
      recognises) or anything else, a plain string message included. */
  datatype Payload = UserPanicPayload(err: UserPanic) | OtherPayload

  /** One observable effect of running a hook. */
  datatype Effect =
    | Emit(text: string)  // one `eprintln!`: the text and its newline
    | DefaultReport       // the report of the hook in place before the first `set_hooks`

  /** A hook: the one in place before the first `set_hooks`, or one installed by
      `set_hooks(developer)` around the hook `original` that it took over. */
  datatype Hook = DefaultHook | UserHook(developer: Option<string>, original: Hook)

  /** `set_hooks`: takes the current hook and installs a new one around it. The
      new hook forwards an unrecognised payload to the one it took over, then adds
      its own note; the chain's notes grow by that note at the end. */
  function SetHooks(current: Hook, developer: Option<string>): (h: Hook)
    ensures Run(h, OtherPayload) == Run(current, OtherPayload) + Note(developer)
    ensures Notes(h) == Notes(current) + Note(developer)
  {
    UserHook(developer, current)
  }

  /** What `panic_func` needs: a recognised descriptor must be renderable. */
  predicate CanHandle(p: Payload)
  {
    p.UserPanicPayload? ==> Renderable(p.err)
  }

  /** The closure installed by `set_hooks`: runs `panic_func`, then prints the
      developer note when one was given. */
  function Run(h: Hook, p: Payload): (r: seq<Effect>)
    requires h.UserHook? ==> CanHandle(p)
    ensures DefaultReport in r <==> (h.DefaultHook? || p.OtherPayload?)
    ensures h.UserHook? ==>
      |Note(h.developer)| <= |r| && r[|r| - |Note(h.developer)|..] == Note(h.developer)
    decreases h, 0
  {
    match h
    case DefaultHook => [DefaultReport]
    case UserHook(developer, original) => PanicFunc(p, original) + Note(developer)
  }

  /** `panic_func`: a descriptor with a message is printed, one with an empty
      message is dropped, anything else goes to the original hook. */
  function PanicFunc(p: Payload, original: Hook): (r: seq<Effect>)
    requires CanHandle(p)
    ensures DefaultReport in r <==> p.OtherPayload?
    ensures p.UserPanicPayload? ==> (r == [] <==> p.err.errorMsg == "")
    ensures p.UserPanicPayload? ==> forall e :: e in r ==> e == Emit(Render(p.err) + "\n")
    decreases original, 1
  {
    match p
    case UserPanicPayload(err) => if err.errorMsg != "" then [Emit(Render(err) + "\n")] else []
    case OtherPayload => Run(original, p)
  }

  /** The `eprintln!("{}", dev)` that follows `panic_func` in the closure. */
  function Note(developer: Option<string>): seq<Effect>
  {
    match developer
    case Some(dev) => [Emit(dev + "\n")]
    case None => []
  }

  /** The developer notes of every hook in the chain, the first installed first. */
  function Notes(h: Hook): seq<Effect>
  {
    match h
    case DefaultHook => []
    case UserHook(developer, original) => Notes(original) + Note(developer)
  }

  /** A recognised descriptor is handled by the most recent hook alone: its
      report (nothing for an empty message), then that hook's note. */
  lemma DescriptorHandled(developer: Option<string>, original: Hook, err: UserPanic)
    requires Renderable(err)
    ensures err.errorMsg != "" ==>
      Run(UserHook(developer, original), UserPanicPayload(err)) == [Emit(Render(err) + "\n")] + Note(developer)
    ensures err.errorMsg == "" ==>
      Run(UserHook(developer, original), UserPanicPayload(err)) == Note(developer)
  {
  }

  /** A silent descriptor under a hook with a note prints only the note. */
  lemma SilentWithNote(dev: string, original: Hook, fix: Option<seq<seq<string>>>)
    ensures Run(UserHook(Some(dev), original), UserPanicPayload(UserPanic("", fix))) == [Emit(dev + "\n")]
  {
  }

  /** Any other payload travels down the whole chain: the default hook reports
      first, then every note, the first installed first. */
  lemma {:induction false} OtherDelegated(h: Hook)
    ensures Run(h, OtherPayload) == [DefaultReport] + Notes(h)
  {
    match h
    case DefaultHook =>
    case UserHook(developer, original) =>
      OtherDelegated(original);
  }

  /** An installed hook reaches the default hook exactly when the payload is not
      a descriptor. */
  lemma Delegation(h: Hook, p: Payload)
    requires h.UserHook? && CanHandle(p)
    ensures DefaultReport in Run(h, p) <==> p.OtherPayload?
  {
    if p.OtherPayload? {
      OtherDelegated(h);
      assert Run(h, p)[0] == DefaultReport;
    } else {
      DescriptorHandled(h.developer, h.original, p.err);
    }
  }

  /** A hook installed with a note prints that note last, whatever the payload. */
  lemma NoteLast(dev: string, original: Hook, p: Payload)
    requires CanHandle(p)
    ensures var r := Run(UserHook(Some(dev), original), p); |r| > 0 && r[|r| - 1] == Emit(dev + "\n")
  {
  }

  /** Two successive installs: an unrecognised payload reaches the default hook
      through the first installed hook, so both notes are printed in order. */
  lemma TwoInstalls(first: string, second: string)
    ensures Run(SetHooks(SetHooks(DefaultHook, Some(first)), Some(second)), OtherPayload)
      == [DefaultReport, Emit(first + "\n"), Emit(second + "\n")]
  {
    var h := SetHooks(SetHooks(DefaultHook, Some(first)), Some(second));
    OtherDelegated(h);
    assert Notes(h.original) == [] + [Emit(first + "\n")];
    assert Notes(h) == Notes(h.original) + [Emit(second + "\n")];
  }
}
