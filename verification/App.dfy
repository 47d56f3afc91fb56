// Registration of components and the one-shot state of an App (app).
module App {
  import opened Text

  datatype Phase = New | Running | Stopped

  datatype Error =
    | NilComponent
    | EmptyComponentName
    | AppStarted
    | DuplicateComponent
    | AlreadyRun
    | InvalidName
    | InvalidTimeout
    | NoComponents
    | NotReady

  datatype Outcome<T> = Ok(value: T) | Err(error: Error)

  // A registered component is represented by the name it reports.
  datatype Component = Nil | Component(name: string)

  class Application {
    var name: string
    var shutdownTimeout: int
    var components: seq<string>
    var componentNames: set<string>
    var phase: Phase
    var ready: bool

    // Registered names are not blank and differ after trimming, and the name
    // index holds exactly the trimmed names.
    ghost predicate Valid()
      reads this
    {
      && componentNames == (set c | c in components :: Trim(c))
      && "" !in componentNames
      && (forall i, j :: 0 <= i < j < |components| ==> Trim(components[i]) != Trim(components[j]))
      && (phase != New ==> components != [])
    }

    constructor (name: string, shutdownTimeout: int)
      ensures Valid() && phase == New && components == [] && !ready
      ensures this.name == name && this.shutdownTimeout == shutdownTimeout
    {
      this.name, this.shutdownTimeout := name, shutdownTimeout;
      components, componentNames, phase, ready := [], {}, New, false;
    }

    // A component is registered exactly when it is the first of its trimmed,
    // non-blank name and the application has not started.
    method Add(component: Component) returns (r: Outcome<()>)
      requires Valid()
      modifies this`components, this`componentNames
      ensures Valid()
      ensures r.Ok? <==>
        && component.Component? && Trim(component.name) != ""
        && phase == New
        && forall c :: c in old(components) ==> Trim(c) != Trim(component.name)
      ensures components == if r.Ok? then old(components) + [component.name] else old(components)
      ensures r.Err? && component.Nil? ==> r.error == NilComponent
      ensures r.Err? && component.Component? && Trim(component.name) == "" ==> r.error == EmptyComponentName
      ensures r.Err? && component.Component? && Trim(component.name) != "" ==>
        r.error == if phase != New then AppStarted else DuplicateComponent
    {
      hide Trim;
      if component.Nil? { return Err(NilComponent); }
      var trimmed := Trim(component.name);
      if trimmed == "" { return Err(EmptyComponentName); }
      if phase != New { return Err(AppStarted); }
      if trimmed in componentNames { return Err(DuplicateComponent); }
      components := components + [component.name];
      componentNames := componentNames + {trimmed};
      return Ok(());
    }

    // At most one call ever succeeds; it hands out the final registration list.
    method BeginRun() returns (r: Outcome<seq<string>>)
      requires Valid()
      modifies this`phase
      ensures Valid()
      ensures r.Ok? <==> old(phase) == New && Trim(name) != "" && shutdownTimeout > 0 && components != []
      ensures r.Ok? ==> phase == Running && r.value == components
      ensures r.Err? ==> phase == old(phase)
      ensures r.Err? ==>
        r.error ==
          if old(phase) != New then AlreadyRun
          else if Trim(name) == "" then InvalidName
          else if shutdownTimeout <= 0 then InvalidTimeout
          else NoComponents
    {
      if phase != New { return Err(AlreadyRun); }
      if Trim(name) == "" { return Err(InvalidName); }
      if shutdownTimeout <= 0 { return Err(InvalidTimeout); }
      if components == [] { return Err(NoComponents); }
      phase := Running;
      return Ok(components);
    }

    method FinishRun()
      requires Valid() && phase == Running
      modifies this`phase
      ensures Valid() && phase == Stopped
    {
      phase := Stopped;
    }

    method CheckReadiness() returns (r: Outcome<()>)
      ensures r == if ready then Ok(()) else Err(NotReady)
    {
      if !ready { return Err(NotReady); }
      return Ok(());
    }
  }
}
