/**
 The route allow-list guard: on every location change it either leaves the
 route alone or reports it and navigates to the fallback path.
 */
module RouteGuard {
  import opened Js

  /** The hook's options; a missing `allowedRoutes` is the empty list and a
      missing `redirectTo` is `'/'`. */
  datatype Options = Options(allowedRoutes: seq<string>, redirectTo: Value, onBlock: Value)

  datatype Effect = Blocked(path: string) | Navigate(to: Value) | NotCallable

  /** The effects of one run of the guard and the new `prevPath`. */
  datatype Outcome = Outcome(effects: seq<Effect>, prevPath: string)

  function RedirectTarget(o: Options): (to: Value)
    ensures o.redirectTo.Undefined? ==> to == Str("/")
    ensures !o.redirectTo.Undefined? ==> to == o.redirectTo
  {
    WithDefault(o.redirectTo, Str("/"))
  }

  /** The guard's effect for the location `current`, with `prev` the value
      of `prevPath` before the run. A truthy `onBlock` that is not a
      function throws before `navigate` and before `prevPath` is updated. */
  function Guard(o: Options, prev: string, current: string): (r: Outcome)
    ensures NotCallable !in r.effects ==> r.prevPath == current
    ensures NotCallable in r.effects ==> r.prevPath == prev && r.effects == [NotCallable]
    ensures |o.allowedRoutes| == 0 ==> r.effects == []
    ensures current in o.allowedRoutes ==> r.effects == []
    ensures |o.allowedRoutes| > 0 && current !in o.allowedRoutes && o.onBlock.Fn? ==>
              r.effects == [Blocked(current), Navigate(RedirectTarget(o))]
    ensures |o.allowedRoutes| > 0 && current !in o.allowedRoutes && !Truthy(o.onBlock) ==>
              r.effects == [Navigate(RedirectTarget(o))]
    ensures |o.allowedRoutes| > 0 && current !in o.allowedRoutes && Truthy(o.onBlock) && !o.onBlock.Fn? ==>
              r.effects == [NotCallable]
    ensures Navigate(RedirectTarget(o)) in r.effects ==> current !in o.allowedRoutes
  {
    var blocked := |o.allowedRoutes| > 0 && current !in o.allowedRoutes;
    if !blocked then Outcome([], current)
    else if !Truthy(o.onBlock) then Outcome([Navigate(RedirectTarget(o))], current)
    else if o.onBlock.Fn? then Outcome([Blocked(current), Navigate(RedirectTarget(o))], current)
    else Outcome([NotCallable], prev)
  }

  /** A redirect to an allowed path is left alone when the guard runs again
      on the new location; a redirect to a path outside a non-empty list
      is redirected again. */
  lemma RedirectSettles(o: Options, prev: string, target: string)
    requires RedirectTarget(o) == Str(target)
    ensures target in o.allowedRoutes ==> Guard(o, prev, target).effects == []
    ensures (|o.allowedRoutes| > 0 && target !in o.allowedRoutes && !Truthy(o.onBlock)) ==> Guard(o, prev, target).effects == [Navigate(Str(target))]
  {
  }

  /** The match is exact: a path that only differs by a trailing slash is
      not allowed. */
  lemma ExactMatch()
    ensures Guard(Options(["/dashboard"], Undefined, Undefined), "/", "/dashboard/").effects == [Navigate(Str("/"))]
    ensures Guard(Options(["/dashboard"], Undefined, Undefined), "/", "/dashboard").effects == []
  {
  }

  /** A truthy `onBlock` that is not a function throws: the guard neither
      navigates nor records the new path. */
  lemma ThrowingOnBlockKeepsPrevPath(prev: string)
    ensures Guard(Options(["/a"], Undefined, Bool(true)), prev, "/b") == Outcome([NotCallable], prev)
  {
    assert "/b" !in ["/a"];
  }
}
