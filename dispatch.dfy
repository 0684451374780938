/**
 * The method dispatch table (`buildServiceMethodMap`): from each method name to
 * the service interface that declares it, built from an ordered list of
 * interfaces. The interfaces' own method lists are not part of this model, so
 * the table is built from declarations passed in.
 */
module Dispatch {
  import opened Outcomes

  datatype Service = AccountService | ProvisioningService | RecordService | ReportingService

  /** A class handed to `buildServiceMethodMap`, with the names of its declared methods. */
  datatype ServiceDecl = ServiceDecl(service: Service, isInterface: bool, methods: seq<string>)

  /** `put(name, s)` for each name in turn. */
  function RecordMethods(t: map<string, Service>, names: seq<string>, s: Service)
    : (r: map<string, Service>)
    ensures forall n :: n in r <==> n in t || n in names
    ensures forall n :: n in names ==> r[n] == s
    ensures forall n :: n in t && n !in names ==> r[n] == t[n]
  {
    if names == [] then t
    else RecordMethods(t, names[..|names| - 1], s)[names[|names| - 1] := s]
  }

  /**
   * The table after registering `decls` in order; the first class that is not an
   * interface fails `Preconditions.checkArgument`.
   */
  function MethodTable(decls: seq<ServiceDecl>): Result<map<string, Service>, Thrown>
  {
    if decls == [] then Ok(map[])
    else
      match MethodTable(decls[..|decls| - 1])
      case Fail(e) => Fail(e)
      case Ok(t) =>
        var d := decls[|decls| - 1];
        if !d.isInterface then Fail(IllegalArgumentException)
        else Ok(RecordMethods(t, d.methods, d.service))
  }

  lemma {:induction false} MethodTableFailurePersists(decls: seq<ServiceDecl>, i: nat)
    requires i <= |decls| && MethodTable(decls[..i]).Fail?
    ensures MethodTable(decls) == MethodTable(decls[..i])
    decreases |decls| - i
  {
    if i < |decls| {
      assert decls[..i + 1][..i] == decls[..i];
      MethodTableFailurePersists(decls, i + 1);
    } else {
      assert decls[..i] == decls;
    }
  }

  /** `buildServiceMethodMap(services...)`: two nested loops `put`ting into a fresh map. */
  method BuildServiceMethodMap(services: seq<ServiceDecl>) returns (r: Result<map<string, Service>, Thrown>)
    ensures r == MethodTable(services)
  {
    var serviceMethods: map<string, Service> := map[];
    for i := 0 to |services|
      invariant MethodTable(services[..i]) == Ok(serviceMethods)
    {
      assert services[..i + 1][..i] == services[..i];
      var service := services[i];
      if !service.isInterface {
        MethodTableFailurePersists(services, i + 1);
        return Fail(IllegalArgumentException);
      }
      ghost var before := serviceMethods;
      for j := 0 to |service.methods|
        invariant serviceMethods == RecordMethods(before, service.methods[..j], service.service)
      {
        assert service.methods[..j + 1][..j] == service.methods[..j];
        serviceMethods := serviceMethods[service.methods[j] := service.service];
      }
      assert service.methods[..|service.methods|] == service.methods;
    }
    assert services[..|services|] == services;
    r := Ok(serviceMethods);
  }

  /** The table can be built exactly when every registered class is an interface. */
  lemma {:induction false} TableBuiltIffAllInterfaces(decls: seq<ServiceDecl>)
    ensures MethodTable(decls).Ok? <==> forall i :: 0 <= i < |decls| ==> decls[i].isInterface
  {
    if decls != [] {
      var init := decls[..|decls| - 1];
      TableBuiltIffAllInterfaces(init);
      assert forall i :: 0 <= i < |init| ==> init[i] == decls[i];
    }
  }

  /** One class more: the step from `decls[..|decls| - 1]` to `decls`. */
  lemma MethodTableStep(decls: seq<ServiceDecl>)
    requires decls != [] && MethodTable(decls).Ok?
    ensures MethodTable(decls[..|decls| - 1]).Ok?
    ensures MethodTable(decls).value ==
            RecordMethods(MethodTable(decls[..|decls| - 1]).value, decls[|decls| - 1].methods,
                          decls[|decls| - 1].service)
  {
  }

  /** Class `i` of `decls` declares `name`, and no class registered after it does. */
  predicate LastDeclarer(decls: seq<ServiceDecl>, name: string, i: int)
  {
    0 <= i < |decls| && name in decls[i].methods &&
    forall j :: i < j < |decls| ==> name !in decls[j].methods
  }

  /** A name is in the table exactly when some registered service declares it. */
  lemma {:induction false} TableNames(decls: seq<ServiceDecl>, name: string)
    requires MethodTable(decls).Ok?
    ensures name in MethodTable(decls).value <==>
            exists i :: 0 <= i < |decls| && name in decls[i].methods
  {
    if decls != [] {
      var n := |decls| - 1;
      var init := decls[..n];
      MethodTableStep(decls);
      TableNames(init, name);
      if exists i :: 0 <= i < |decls| && name in decls[i].methods {
        var i :| 0 <= i < |decls| && name in decls[i].methods;
        if i < n {
          assert init[i] == decls[i];
        }
      }
      if name in MethodTable(init).value {
        var i :| 0 <= i < n && name in init[i].methods;
        assert init[i] == decls[i];
      }
    }
  }

  /**
   * Last registration wins: a name in the table maps to the last service, in
   * registration order, that declares it.
   */
  lemma {:induction false} LastDeclarerWins(decls: seq<ServiceDecl>, name: string)
    requires MethodTable(decls).Ok? && name in MethodTable(decls).value
    ensures exists i :: LastDeclarer(decls, name, i) && MethodTable(decls).value[name] == decls[i].service
  {
    var n := |decls| - 1;
    var init := decls[..n];
    MethodTableStep(decls);
    if name in decls[n].methods {
      assert LastDeclarer(decls, name, n);
    } else {
      var before := MethodTable(init).value;
      assert name in before;
      LastDeclarerWins(init, name);
      var i :| LastDeclarer(init, name, i) && before[name] == init[i].service;
      assert forall j :: i < j < n ==> init[j] == decls[j];
      assert LastDeclarer(decls, name, i);
    }
  }

  /**
   * The four service interfaces in registration order, each with the methods it
   * declares; `methodsOf` stands for `getDeclaredMethods()`.
   */
  function RegisteredDecls(methodsOf: Service -> seq<string>): seq<ServiceDecl>
  {
    [ServiceDecl(AccountService, true, methodsOf(AccountService)),
     ServiceDecl(ProvisioningService, true, methodsOf(ProvisioningService)),
     ServiceDecl(RecordService, true, methodsOf(RecordService)),
     ServiceDecl(ReportingService, true, methodsOf(ReportingService))]
  }

  /**
   * `serviceInterfaces`: the table of the four registered interfaces is always
   * built; it holds exactly the declared method names, and a name that
   * ReportingService, registered last, declares belongs to ReportingService.
   */
  lemma RegisteredTable(methodsOf: Service -> seq<string>)
    ensures MethodTable(RegisteredDecls(methodsOf)).Ok?
    ensures forall name :: name in MethodTable(RegisteredDecls(methodsOf)).value <==>
                             exists s :: name in methodsOf(s)
    ensures forall name :: name in methodsOf(ReportingService) ==>
                             name in MethodTable(RegisteredDecls(methodsOf)).value &&
                             MethodTable(RegisteredDecls(methodsOf)).value[name] == ReportingService
  {
    var decls := RegisteredDecls(methodsOf);
    TableBuiltIffAllInterfaces(decls);
    var table := MethodTable(decls).value;
    forall name ensures name in table <==> exists s :: name in methodsOf(s) {
      TableNames(decls, name);
      if exists s :: name in methodsOf(s) {
        var s :| name in methodsOf(s);
        var i := match s
          case AccountService => 0
          case ProvisioningService => 1
          case RecordService => 2
          case ReportingService => 3;
        assert name in decls[i].methods;
      }
      if name in table {
        var i :| 0 <= i < |decls| && name in decls[i].methods;
        assert name in methodsOf(decls[i].service);
      }
    }
    forall name | name in methodsOf(ReportingService)
      ensures name in table && table[name] == ReportingService
    {
      TableNames(decls, name);
      assert name in decls[3].methods;
      LastDeclarerWins(decls, name);
      var i :| LastDeclarer(decls, name, i) && table[name] == decls[i].service;
      assert i == 3;
    }
  }
}
