/**
 CLIENT KILL: the checks on its argument types, the command built from them and
 what a reader of that command finds.
 */
module ClientKills {
  import opened Commands
  import opened Decimal
  import opened TypeLists
  import opened Wrappers

  datatype ClientType = Normal | Master | Pubsub | Slave

  // Types of arguments; every integral type but bool carries its name, every class its own.
  datatype Type = ClientTypeT | BoolT | IntegralT(name: string) | ClassT(name: string)

  type Callback = nat

  datatype Arg =
    | TypeArg(kind: ClientType)
    | SkipArg(skip: bool)
    | IdArg(name: string, id: int)
    | CallbackArg(name: string, callback: Option<Callback>)

  function TypeOf(a: Arg): Type {
    match a
    case TypeArg(_) => ClientTypeT
    case SkipArg(_) => BoolT
    case IdArg(name, _) => IntegralT(name)
    case CallbackArg(name, _) => ClassT(name)
  }

  function TypesOf(args: seq<Arg>): (ts: seq<Type>)
    ensures |ts| == |args| && forall i :: 0 <= i < |ts| ==> ts[i] == TypeOf(args[i])
  {
    if args == [] then [] else [TypeOf(args[0])] + TypesOf(args[1..])
  }

  // --- Checks ---------------------------------------------------------------

  // The recursion over the arguments refuses a callback before the last place.
  predicate CallbackLast(args: seq<Arg>)
    requires args != []
  {
    |args| == 1 || (!TypeOf(args[0]).ClassT? && CallbackLast(args[1..]))
  }

  predicate AcceptsAddress(args: seq<Arg>)
    requires args != []
  {
    IsDifferentTypes(TypesOf(args)) && CallbackLast(args)
  }

  predicate AcceptsFilters(args: seq<Arg>)
    requires args != []
  {
    && AcceptsAddress(args)
    && !(TypeOf(args[0]).ClassT? && TypeOf(args[0]) == Back(TypesOf(args)))
  }

  lemma {:induction false} CallbackLastIff(args: seq<Arg>)
    requires args != []
    ensures CallbackLast(args) <==> forall i :: 0 <= i < |args| - 1 ==> !args[i].CallbackArg?
  {
    if |args| > 1 {
      CallbackLastIff(args[1..]);
      assert forall i :: 0 < i < |args| ==> args[i] == args[1..][i - 1];
      if CallbackLast(args) {
        forall i | 0 <= i < |args| - 1 ensures !args[i].CallbackArg? {
          assert i == 0 || args[i] == args[1..][i - 1];
        }
      }
    }
  }

  /**
   A call is accepted exactly when its types differ pairwise, only its last argument
   may be a callback and it has a filter.
   */
  lemma AcceptsFiltersIff(args: seq<Arg>)
    requires args != []
    ensures AcceptsFilters(args) <==>
              && Distinct(TypesOf(args))
              && (forall i :: 0 <= i < |args| - 1 ==> !args[i].CallbackArg?)
              && exists i :: 0 <= i < |args| && !args[i].CallbackArg?
  {
    DifferentIffDistinct(TypesOf(args));
    CallbackLastIff(args);
    BackIsLast(TypesOf(args));
    assert TypeOf(args[0]).ClassT? == args[0].CallbackArg?;
  }

  // --- Words ----------------------------------------------------------------

  function KindWord(k: ClientType): string {
    match k
    case Normal => "normal"
    case Master => "master"
    case Pubsub => "pubsub"
    case Slave => "slave"
  }

  // Every integral argument is converted to an unsigned 64-bit number.
  function ToUint64(v: int): nat {
    v % 0x1_0000_0000_0000_0000
  }

  function ArgWords(a: Arg): seq<string> {
    match a
    case TypeArg(k) => ["TYPE", KindWord(k)]
    case SkipArg(skip) => ["SKIPME", if skip then "yes" else "no"]
    case IdArg(_, v) => ["ID", Print(ToUint64(v))]
    case CallbackArg(_, _) => []
  }

  function Words(args: seq<Arg>): seq<string> {
    if args == [] then [] else ArgWords(args[0]) + Words(args[1..])
  }

  function CallbackOf(args: seq<Arg>, before: Option<Callback>): Option<Callback> {
    if args == [] then before
    else CallbackOf(args[1..], if args[0].CallbackArg? then args[0].callback else before)
  }

  const PREFIX: seq<string> := ["CLIENT", "KILL"]

  function Address(host: string, port: int): string {
    host + ":" + PrintInt(port)
  }

  function FilterCommand(args: seq<Arg>): Command {
    PREFIX + Words(args)
  }

  function AddressCommand(host: string, port: int, args: seq<Arg>): Command
    requires args != []
  {
    PREFIX + (if TypeOf(args[0]).ClassT? then [] else ["ADDR"]) + [Address(host, port)] + Words(args)
  }

  // --- What a reader finds ----------------------------------------------------

  datatype Filter =
    | ByAddress(host: string, port: int)
    | ByType(kind: ClientType)
    | SkipMe(skip: bool)
    | ById(id: nat)

  datatype Kill = OldForm(host: string, port: int) | NewForm(filters: seq<Filter>)

  function FilterOf(a: Arg): Filter
    requires !a.CallbackArg?
  {
    match a
    case TypeArg(k) => ByType(k)
    case SkipArg(skip) => SkipMe(skip)
    case IdArg(_, v) => ById(ToUint64(v))
  }

  function FiltersOf(args: seq<Arg>): seq<Filter> {
    if args == [] then []
    else (if args[0].CallbackArg? then [] else [FilterOf(args[0])]) + FiltersOf(args[1..])
  }

  // A host may hold colons of its own: the port follows the last one.
  function ReadAddress(s: string): Option<(string, int)> {
    if s == "" then None
    else if s[|s| - 1] == ':' then None
    else ReadAddressFrom(s, |s| - 1)
  }

  function ReadAddressFrom(s: string, i: nat): Option<(string, int)>
    requires i < |s|
    decreases i
  {
    if s[i] == ':' then
      match ParseInt(s[i + 1..])
      case Some(port) => Some((s[..i], port))
      case None => None
    else if i == 0 then None
    else ReadAddressFrom(s, i - 1)
  }

  function ReadFilter(key: string, value: string): Option<Filter> {
    if key == "ADDR" then
      match ReadAddress(value)
      case Some(a) => Some(ByAddress(a.0, a.1))
      case None => None
    else if key == "TYPE" then
      if value == "normal" then Some(ByType(Normal))
      else if value == "master" then Some(ByType(Master))
      else if value == "pubsub" then Some(ByType(Pubsub))
      else if value == "slave" then Some(ByType(Slave))
      else None
    else if key == "SKIPME" then
      if value == "yes" then Some(SkipMe(true)) else if value == "no" then Some(SkipMe(false)) else None
    else if key == "ID" && value != "" && AllDigits(value) then Some(ById(Value(value)))
    else None
  }

  function ReadFilters(words: seq<string>): Option<seq<Filter>> {
    if words == [] then Some([])
    else if |words| == 1 then None
    else
      match (ReadFilter(words[0], words[1]), ReadFilters(words[2..]))
      case (Some(f), Some(fs)) => Some([f] + fs)
      case _ => None
  }

  function ReadKill(cmd: Command): Option<Kill> {
    if |cmd| < 3 || cmd[..2] != PREFIX then None
    else if |cmd| == 3 then
      match ReadAddress(cmd[2])
      case Some(a) => Some(OldForm(a.0, a.1))
      case None => None
    else
      match ReadFilters(cmd[2..])
      case Some(fs) => Some(NewForm(fs))
      case None => None
  }

  lemma PortHasNoColon(port: int)
    ensures PrintInt(port) != "" && ':' !in PrintInt(port)
  {
    var n := if port < 0 then -port else port;
    PrintIsDigits(n);
    forall i | 0 <= i < |PrintInt(port)| ensures PrintInt(port)[i] != ':' {
      assert port < 0 && i > 0 ==> PrintInt(port)[i] == Print(n)[i - 1];
      assert port >= 0 ==> IsDigit(PrintInt(port)[i]);
      assert port < 0 && i > 0 ==> IsDigit(PrintInt(port)[i]);
    }
  }

  lemma {:induction false} SkipsPort(host: string, port: string, i: nat)
    requires ':' !in port && |host| <= i < |host| + 1 + |port|
    ensures ReadAddressFrom(host + ":" + port, i) == ReadAddressFrom(host + ":" + port, |host|)
    decreases i
  {
    var s := host + ":" + port;
    if i > |host| {
      assert s[i] == port[i - |host| - 1];
      SkipsPort(host, port, i - 1);
    }
  }

  /** An address reads back as its host and port, whatever colons the host contains. */
  lemma AddressRoundTrip(host: string, port: int)
    requires -INT64_MAX <= port <= INT64_MAX
    ensures ReadAddress(Address(host, port)) == Some((host, port))
  {
    var p := PrintInt(port);
    var s := host + ":" + p;
    PortHasNoColon(port);
    assert s[|s| - 1] == p[|p| - 1];
    SkipsPort(host, p, |s| - 1);
    ParsePrinted(port);
    assert s[..|host|] == host && s[|host| + 1..] == p;
  }

  lemma ArgReadsBack(a: Arg)
    requires !a.CallbackArg?
    ensures |ArgWords(a)| == 2 && ReadFilter(ArgWords(a)[0], ArgWords(a)[1]) == Some(FilterOf(a))
  {
    if a.IdArg? {
      PrintIsDigits(ToUint64(a.id));
    }
  }

  lemma {:induction false} WordsReadBack(args: seq<Arg>)
    ensures ReadFilters(Words(args)) == Some(FiltersOf(args))
    ensures |Words(args)| == 2 * |FiltersOf(args)|
  {
    hide ReadFilter;
    hide ArgWords;
    if args != [] {
      WordsReadBack(args[1..]);
      var rest := Words(args[1..]);
      if args[0].CallbackArg? {
        assert ArgWords(args[0]) == [] by { NoWords(args[0]); }
        assert [] + rest == rest && [] + FiltersOf(args[1..]) == FiltersOf(args[1..]);
      } else {
        ArgReadsBack(args[0]);
        assert (ArgWords(args[0]) + rest)[2..] == rest;
      }
    }
  }

  lemma NoWords(a: Arg)
    requires a.CallbackArg?
    ensures ArgWords(a) == []
  {
  }

  lemma HasFilters(args: seq<Arg>)
    requires args != [] && !args[0].CallbackArg?
    ensures FiltersOf(args) != []
  {
  }

  /** The command of an accepted filter call reads back as its filters in order; a callback adds nothing. */
  lemma FilterRoundTrip(args: seq<Arg>)
    requires args != [] && AcceptsFilters(args)
    ensures ReadKill(FilterCommand(args)) == Some(NewForm(FiltersOf(args)))
  {
    AcceptsFiltersIff(args);
    WordsReadBack(args);
    HasFilters(args);
    assert FilterCommand(args)[2..] == Words(args) && FilterCommand(args)[..2] == PREFIX;
  }

  lemma OneFilter(arg: Arg)
    requires !arg.CallbackArg?
    ensures AcceptsFilters([arg]) && Words([arg]) == ArgWords(arg) && FiltersOf([arg]) == [FilterOf(arg)]
  {
    var args := [arg];
    AcceptsFiltersIff(args);
    assert !args[0].CallbackArg?;
    assert args[1..] == [] && ArgWords(arg) + [] == ArgWords(arg);
  }

  /**
   Ids keep all their 64 bits: up to 18446744073709551615 they are written as they
   are, and negative ones with 18446744073709551616 added.
   */
  lemma IdsAreUint64(name: string, id: int)
    requires -9223372036854775808 <= id <= 18446744073709551615
    ensures FilterCommand([IdArg(name, id)]) ==
              ["CLIENT", "KILL", "ID", PrintInt(if id >= 0 then id else id + 18446744073709551616)]
    ensures ReadKill(FilterCommand([IdArg(name, id)])) ==
              Some(NewForm([ById(if id >= 0 then id else id + 18446744073709551616)]))
  {
    var arg := IdArg(name, id);
    assert ToUint64(id) == if id >= 0 then id else id + 18446744073709551616;
    OneFilter(arg);
    FilterRoundTrip([arg]);
    hide ReadKill, Print;
  }

  lemma OneSpelled(arg: Arg, key: string, value: string)
    requires !arg.CallbackArg? && ArgWords(arg) == [key, value]
    ensures FilterCommand([arg]) == ["CLIENT", "KILL", key, value]
  {
    hide ArgWords, Words;
    OneFilter(arg);
    assert PREFIX == ["CLIENT", "KILL"];
  }

  /** The words of each other filter. */
  lemma FiltersSpelled(skip: bool)
    ensures FilterCommand([TypeArg(Normal)]) == ["CLIENT", "KILL", "TYPE", "normal"]
    ensures FilterCommand([TypeArg(Master)]) == ["CLIENT", "KILL", "TYPE", "master"]
    ensures FilterCommand([TypeArg(Pubsub)]) == ["CLIENT", "KILL", "TYPE", "pubsub"]
    ensures FilterCommand([TypeArg(Slave)]) == ["CLIENT", "KILL", "TYPE", "slave"]
    ensures FilterCommand([SkipArg(skip)]) == ["CLIENT", "KILL", "SKIPME", if skip then "yes" else "no"]
  {
    OneSpelled(TypeArg(Normal), "TYPE", "normal");
    OneSpelled(TypeArg(Master), "TYPE", "master");
    OneSpelled(TypeArg(Pubsub), "TYPE", "pubsub");
    OneSpelled(TypeArg(Slave), "TYPE", "slave");
    OneSpelled(SkipArg(skip), "SKIPME", if skip then "yes" else "no");
    hide FilterCommand;
  }

  /** The words of both forms with an address. */
  lemma AddressesSpelled(host: string, port: int, callback: Arg, id: nat)
    requires callback.CallbackArg? && id <= 18446744073709551615
    ensures AddressCommand(host, port, [callback]) == ["CLIENT", "KILL", host + ":" + PrintInt(port)]
    ensures AddressCommand(host, port, [IdArg("long", id)]) ==
              ["CLIENT", "KILL", "ADDR", host + ":" + PrintInt(port), "ID", PrintInt(id)]
  {
    var arg := IdArg("long", id);
    assert ToUint64(id) == id;
    OneFilter(arg);
    assert Words([callback]) == [] by { assert [callback][1..] == []; }
    var address := host + ":" + PrintInt(port);
    assert ArgWords(arg) == ["ID", PrintInt(id)];
    hide Words, PrintInt, ArgWords, Address;
    assert Address(host, port) == address by { AddressIs(host, port); }
  }

  lemma AddressIs(host: string, port: int)
    ensures Address(host, port) == host + ":" + PrintInt(port)
  {
  }

  /**
   The command of an accepted call with an address reads back as the old form
   exactly when the first argument after the port is the callback; otherwise as the
   address followed by the filters.
   */
  lemma AddressRoundTrips(host: string, port: int, args: seq<Arg>)
    requires args != [] && AcceptsAddress(args) && -INT64_MAX <= port <= INT64_MAX
    ensures ReadKill(AddressCommand(host, port, args)) ==
              if args[0].CallbackArg? then Some(OldForm(host, port))
              else Some(NewForm([ByAddress(host, port)] + FiltersOf(args)))
  {
    hide *;
    if args[0].CallbackArg? {
      OldFormReadsBack(host, port, args);
    } else {
      NewFormReadsBack(host, port, args);
    }
  }

  lemma OldFormReadsBack(host: string, port: int, args: seq<Arg>)
    requires args != [] && AcceptsAddress(args) && -INT64_MAX <= port <= INT64_MAX && args[0].CallbackArg?
    ensures ReadKill(AddressCommand(host, port, args)) == Some(OldForm(host, port))
  {
    hide ReadAddress;
    hide Address;
    AddressRoundTrip(host, port);
    assert Words(args) == [];
    assert AddressCommand(host, port, args) == PREFIX + [Address(host, port)];
  }

  lemma NewFormReadsBack(host: string, port: int, args: seq<Arg>)
    requires args != [] && -INT64_MAX <= port <= INT64_MAX && !args[0].CallbackArg?
    ensures ReadKill(AddressCommand(host, port, args)) == Some(NewForm([ByAddress(host, port)] + FiltersOf(args)))
  {
    hide ReadFilters;
    hide Address;
    hide Words;
    var cmd := AddressCommand(host, port, args);
    AddressFirst(host, port, args);
    WordsReadBack(args);
    HasFilters(args);
    assert cmd == PREFIX + (["ADDR", Address(host, port)] + Words(args));
    assert cmd[2..] == ["ADDR", Address(host, port)] + Words(args) && cmd[..2] == PREFIX;
  }

  lemma AddressFirst(host: string, port: int, args: seq<Arg>)
    requires -INT64_MAX <= port <= INT64_MAX
    ensures ReadFilters(["ADDR", Address(host, port)] + Words(args)) ==
              Some([ByAddress(host, port)] + FiltersOf(args))
  {
    hide ReadAddress;
    hide Address;
    AddressRoundTrip(host, port);
    WordsReadBack(args);
    var words := ["ADDR", Address(host, port)] + Words(args);
    assert words[2..] == Words(args);
  }

  // --- How many filters of each sort ------------------------------------------

  datatype Sort = Addresses | Types | Skips | Ids

  function SortOf(f: Filter): Sort {
    match f
    case ByAddress(_, _) => Addresses
    case ByType(_) => Types
    case SkipMe(_) => Skips
    case ById(_) => Ids
  }

  function Count(fs: seq<Filter>, sort: Sort): nat {
    if fs == [] then 0 else Truth(SortOf(fs[0]) == sort) + Count(fs[1..], sort)
  }

  function IntegralTypes(args: seq<Arg>): set<string> {
    set a | a in args && a.IdArg? :: a.name
  }

  function Truth(b: bool): nat {
    if b then 1 else 0
  }

  /**
   An accepted call emits at most one TYPE and one SKIPME pair, and one ID pair for
   each integral type among its arguments rather than at most one.
   */
  lemma {:induction false} PairCounts(args: seq<Arg>)
    requires Distinct(TypesOf(args))
    ensures Count(FiltersOf(args), Types) == Truth(ClientTypeT in TypesOf(args))
    ensures Count(FiltersOf(args), Skips) == Truth(BoolT in TypesOf(args))
    ensures Count(FiltersOf(args), Ids) == |IntegralTypes(args)|
  {
    hide FiltersOf;
    hide Count;
    hide IntegralTypes;
    if args == [] {
      assert FiltersOf(args) == [] && Count([], Types) == Count([], Skips) == Count([], Ids) == 0 by { NoArguments(); }
      assert IntegralTypes(args) == {} by { NoArguments(); }
    } else {
      DistinctCons(TypesOf(args));
      assert TypesOf(args)[1..] == TypesOf(args[1..]);
      assert TypesOf(args) == [TypeOf(args[0])] + TypesOf(args[1..]);
      PairCounts(args[1..]);
      CountCons(args, Types);
      CountCons(args, Skips);
      CountCons(args, Ids);
      IntegralTypesCons(args);
    }
  }

  lemma NoArguments()
    ensures FiltersOf([]) == [] && IntegralTypes([]) == {}
    ensures forall sort :: Count([], sort) == 0
  {
  }

  lemma CountCons(args: seq<Arg>, sort: Sort)
    requires args != []
    ensures Count(FiltersOf(args), sort) ==
              Truth(!args[0].CallbackArg? && SortOf(FilterOf(args[0])) == sort) + Count(FiltersOf(args[1..]), sort)
  {
    var rest := FiltersOf(args[1..]);
    assert [] + rest == rest;
    assert !args[0].CallbackArg? ==> ([FilterOf(args[0])] + rest)[1..] == rest;
  }

  lemma IntegralTypesCons(args: seq<Arg>)
    requires args != []
    ensures IntegralTypes(args) == (if args[0].IdArg? then {args[0].name} else {}) + IntegralTypes(args[1..])
    ensures args[0].IdArg? && TypeOf(args[0]) !in TypesOf(args[1..]) ==> args[0].name !in IntegralTypes(args[1..])
  {
    assert args == [args[0]] + args[1..];
    forall a | a in args[1..] && a.IdArg? ensures IntegralT(a.name) in TypesOf(args[1..]) {
      var i :| 0 <= i < |args[1..]| && args[1..][i] == a;
      assert TypesOf(args[1..])[i] == TypeOf(a);
    }
  }

  /** Two integral types make two ID pairs although the check is meant to leave one value for each filter. */
  lemma TwoIdsAreAccepted()
    ensures var args := [IdArg("int", 5), IdArg("long", 7)];
            AcceptsFilters(args) && FiltersOf(args) == [ById(5), ById(7)]
  {
    var args := [IdArg("int", 5), IdArg("long", 7)];
    AcceptsFiltersIff(args);
    assert args[1..][1..] == [];
    assert TypesOf(args)[0] != TypesOf(args)[1];
    assert !args[0].CallbackArg?;
  }

  /** The callback of an accepted call is its last argument when that is one; otherwise there is none. */
  lemma {:induction false} CallbackIsLast(args: seq<Arg>, before: Option<Callback>)
    requires args != [] && CallbackLast(args)
    ensures CallbackOf(args, before) ==
              if args[|args| - 1].CallbackArg? then args[|args| - 1].callback else before
  {
    if |args| > 1 {
      CallbackIsLast(args[1..], before);
    } else {
      assert args[1..] == [];
    }
  }

  // --- The object -------------------------------------------------------------

  // The command under construction: words are appended and the callback is assigned in place.
  class KillCommand {
    var redisCmd: seq<string>
    var replyCallback: Option<Callback>

    constructor ()
      ensures redisCmd == PREFIX && replyCallback == None
    {
      redisCmd, replyCallback := ["CLIENT", "KILL"], None;
    }

    method UnpackArg(arg: Arg)
      modifies this
      ensures redisCmd == old(redisCmd) + ArgWords(arg)
      ensures replyCallback == CallbackOf([arg], old(replyCallback))
    {
      assert [arg][1..] == [];
      match arg
      case TypeArg(kind) =>
        redisCmd := redisCmd + ["TYPE"];
        var typeString;
        match kind {
          case Normal => typeString := "normal";
          case Master => typeString := "master";
          case Pubsub => typeString := "pubsub";
          case Slave => typeString := "slave";
        }
        redisCmd := redisCmd + [typeString];
      case SkipArg(skip) =>
        redisCmd := redisCmd + ["SKIPME"];
        redisCmd := redisCmd + [if skip then "yes" else "no"];
      case IdArg(_, id) =>
        redisCmd := redisCmd + ["ID"];
        redisCmd := redisCmd + [Print(ToUint64(id))];
      case CallbackArg(_, callback) =>
        replyCallback := callback;
    }

    method Unpack(args: seq<Arg>)
      requires args != [] && CallbackLast(args)
      modifies this
      ensures redisCmd == old(redisCmd) + Words(args)
      ensures replyCallback == CallbackOf(args, old(replyCallback))
      decreases |args|
    {
      UnpackArg(args[0]);
      if |args| > 1 {
        Unpack(args[1..]);
      } else {
        assert args == [args[0]] && Words(args) == ArgWords(args[0]) + [];
      }
    }

    method ForFilters(args: seq<Arg>)
      requires args != [] && AcceptsFilters(args)
      modifies this
      ensures redisCmd == FilterCommand(args) && replyCallback == CallbackOf(args, None)
    {
      redisCmd, replyCallback := ["CLIENT", "KILL"], None;
      Unpack(args);
    }

    method ForAddress(host: string, port: int, args: seq<Arg>)
      requires args != [] && AcceptsAddress(args)
      modifies this
      ensures redisCmd == AddressCommand(host, port, args) && replyCallback == CallbackOf(args, None)
    {
      redisCmd, replyCallback := ["CLIENT", "KILL"], None;
      // any type but a class is a filter
      if !TypeOf(args[0]).ClassT? {
        redisCmd := redisCmd + ["ADDR"];
      }
      redisCmd := redisCmd + [host + ":" + PrintInt(port)];
      Unpack(args);
    }

    // Without further arguments an empty callback is passed on.
    method ForAddressOnly(host: string, port: int)
      modifies this
      ensures redisCmd == PREFIX + [Address(host, port)] && replyCallback == None
    {
      var none := [CallbackArg("reply_callback_t", None)];
      assert TypesOf(none) == [ClassT("reply_callback_t")] && none[1..] == [];
      ForAddress(host, port, none);
      assert Words(none) == [];
      assert PREFIX + [] + [Address(host, port)] + [] == PREFIX + [Address(host, port)];
    }
  }
}
