/** todo.js, the earlier copy of the app: the same validator, store and
    handlers as todo.jsx, and the same screens except the three of the
    password-recovery flow, whose controls (the "forgot password" link and
    everything on the recovery screens) it does not have. It is modelled
    with the definitions of todo.jsx restricted to the controls it has. */
module Legacy {
  import opened Base
  import opened Service
  import opened Navigation

  /** The controls todo.js has. */
  predicate Control(e: Event) {
    !(e.OpenForgot? || e.BackToLogin? || e.ResendCode? || RecoveryEvent(e))
  }

  /** The screens todo.js has. */
  predicate LegacyScreen(screen: Screen) {
    screen == Login || screen == Register || UserScreen(screen)
  }

  /** A state todo.js can be in: one of its screens, and the recovery fields
      todo.js does not have are empty. */
  predicate NoRecovery(s: Session) {
    LegacyScreen(s.screen) && s.recoveryEmail == [] && s.recoveryCode == []
  }

  /** The root component of todo.js: like that of todo.jsx, without the
      recovery screens. */
  function LegacyRendered(s: Session): Option<Screen> {
    if LegacyScreen(s.screen) then Rendered(s) else None
  }

  /** One user action on todo.js: a control it lacks cannot be used. */
  function Click(a: App, e: Event): App {
    if Control(e) then Step(a, e) else a
  }

  /** A sequence of user actions on todo.js, first to last. */
  function Replay(a: App, es: seq<Event>): App
    decreases |es|
  {
    if es == [] then a else Replay(Click(a, es[0]), es[1..])
  }

  lemma SignInStaysOut(a: App, e: Event)
    requires NoRecovery(a.session) && Enabled(a, e) && SignInEvent(e)
    ensures NoRecovery(Apply(a, e).session)
  {
  }

  lemma AccountStaysOut(a: App, e: Event)
    requires NoRecovery(a.session) && Enabled(a, e) && AccountEvent(e) && a.session.currentUser.Some?
    ensures NoRecovery(Apply(a, e).session)
  {
  }

  lemma RowStaysOut(a: App, e: Event)
    requires NoRecovery(a.session) && Enabled(a, e) && RowEvent(e) && a.session.currentUser.Some?
    ensures NoRecovery(Apply(a, e).session)
  {
  }

  lemma PlainStaysOut(a: App, e: Event)
    requires NoRecovery(a.session) && Enabled(a, e) && Control(e) && !CallsHandler(e)
    ensures NoRecovery(Apply(a, e).session)
  {
  }

  /** No control of todo.js leads to a recovery screen or fills the recovery
      fields. */
  lemma ClickStaysOut(a: App, e: Event)
    requires Inv(a) && NoRecovery(a.session)
    ensures NoRecovery(Click(a, e).session)
  {
    if Control(e) && Enabled(a, e) {
      if SignInEvent(e) {
        SignInStaysOut(a, e);
      } else if AccountEvent(e) {
        AccountStaysOut(a, e);
      } else if RowEvent(e) {
        RowStaysOut(a, e);
      } else {
        PlainStaysOut(a, e);
      }
    }
  }

  /** The state of todo.js after any sequence of actions satisfies the
      invariant of todo.jsx and never involves the recovery flow. */
  lemma {:induction false} ReplayStaysOut(a: App, es: seq<Event>)
    requires Inv(a) && NoRecovery(a.session)
    ensures Inv(Replay(a, es)) && NoRecovery(Replay(a, es).session)
    decreases |es|
  {
    if es != [] {
      ClickStaysOut(a, es[0]);
      StepKeepsInv(a, es[0]);
      ReplayStaysOut(Click(a, es[0]), es[1..]);
    }
  }

  /** todo.js behaves as todo.jsx driven only by the controls both have. */
  lemma {:induction false} ReplayIsRun(a: App, es: seq<Event>)
    requires forall i | 0 <= i < |es| :: Control(es[i])
    ensures Replay(a, es) == Run(a, es)
    decreases |es|
  {
    if es != [] {
      assert Control(es[0]);
      ReplayIsRun(Step(a, es[0]), es[1..]);
    }
  }

  /** The render guards of todo.js never blank the page: in every reachable
      state its root component mounts the screen named by `screen`, and a
      user screen only for a signed-in user. */
  lemma LegacyAlwaysRendered(es: seq<Event>)
    ensures var s := Replay(Start, es).session;
      && LegacyRendered(s) == Some(s.screen)
      && (UserScreen(s.screen) <==> s.currentUser.Some?)
  {
    StartInv();
    ReplayStaysOut(Start, es);
  }
}
