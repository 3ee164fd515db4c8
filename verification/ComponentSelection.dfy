/**
 Component selection: the memoised `ShouldEnable` and `ShouldDisable` and the
 reported lists (internal/config/config.go), and what the server registers
 (internal/server/server.go).
 */
module ComponentSelection {
  import opened Prelude

  type Names = seq<string>

  predicate Wildcard(c: string)
  {
    c == "*" || c == "all"
  }

  predicate Dash(c: string)
  {
    |c| > 0 && c[0] == '-'
  }

  /** The first entry selects everything, or there is none. */
  predicate AllMode(cs: Names)
  {
    cs == [] || Wildcard(cs[0])
  }

  predicate HasWildcard(cs: Names)
  {
    exists c :: c in cs && Wildcard(c)
  }

  /** A wildcard that is not in first place, in a list whose first entry is none: the case the memo mishandles. */
  predicate LateWildcard(cs: Names)
  {
    cs != [] && cs[0] != "*" && cs[0] != "all" && ("*" in cs || "all" in cs)
  }

  // ------------------------------------------------------------ the answers without a memo

  function Selected(cs: Names): set<string>
  {
    set c | c in cs && !Wildcard(c) && !Dash(c) :: c
  }

  function Disabled(cs: Names): set<string>
  {
    set c | c in cs && Dash(c) :: c[1..]
  }

  predicate Enables(cs: Names, name: string)
  {
    AllMode(cs) || HasWildcard(cs) || name in Selected(cs)
  }

  /** A component is disabled by its own name after a dash. */
  predicate Disables(cs: Names, name: string)
  {
    ['-'] + name in cs
  }

  lemma DisabledIsDashed(cs: Names, name: string)
    ensures name in Disabled(cs) <==> Disables(cs, name)
  {
    assert (['-'] + name)[1..] == name;
    forall c | c in cs && Dash(c) && c[1..] == name
      ensures c == ['-'] + name
    {
    }
  }

  /** What the reported lists call enabled. */
  predicate Reports(cs: Names, name: string)
  {
    !Disables(cs, name) && (AllMode(cs) || name in Selected(cs))
  }

  // ------------------------------------------------------------ the memo

  datatype Memos = Memos(selected: Option<set<string>>, disabled: Option<set<string>>)

  const FRESH: Memos := Memos(None, None)

  /** The entries before the first wildcard. */
  function BeforeWildcard(cs: Names): (r: Names)
    ensures r <= cs && !HasWildcard(r)
    ensures |r| < |cs| ==> Wildcard(cs[|r|])
    ensures !HasWildcard(cs) ==> r == cs
  {
    if cs == [] || Wildcard(cs[0]) then [] else
      var rest := BeforeWildcard(cs[1..]);
      assert cs == [cs[0]] + cs[1..];
      [cs[0]] + rest
  }

  datatype Call = Enable(name: string) | Disable(name: string)

  /** One call: its answer and the memo it leaves. */
  function Ask(cs: Names, m: Memos, call: Call): (bool, Memos)
  {
    match call
    case Enable(name) =>
      if AllMode(cs) then (true, m)
      else if m.selected.None? then
        (HasWildcard(cs) || name in Selected(cs), m.(selected := Some(Selected(BeforeWildcard(cs)))))
      else (name in m.selected.value, m)
    case Disable(name) =>
      if cs == [] then (false, m)
      else (
        name in (if m.disabled.None? then Disabled(cs) else m.disabled.value),
        if m.disabled.None? then m.(disabled := Some(Disabled(cs))) else m)
  }

  function After(cs: Names, m: Memos, calls: seq<Call>): Memos
  {
    if calls == [] then m else Ask(cs, After(cs, m, calls[..|calls| - 1]), calls[|calls| - 1]).1
  }

  /** The answer to a call made after others. */
  function Answer(cs: Names, before: seq<Call>, call: Call): bool
  {
    Ask(cs, After(cs, FRESH, before), call).0
  }

  predicate Pure(cs: Names, call: Call)
  {
    match call
    case Enable(name) => Enables(cs, name)
    case Disable(name) => Disables(cs, name)
  }

  /** The memo holds what the list says, as far as it holds anything. */
  ghost predicate Coherent(cs: Names, m: Memos)
  {
    && (m.selected.Some? ==> m.selected.value == Selected(BeforeWildcard(cs)))
    && (m.disabled.Some? ==> m.disabled.value == Disabled(cs))
  }

  lemma AskKeepsCoherent(cs: Names, m: Memos, call: Call)
    requires Coherent(cs, m)
    ensures Coherent(cs, Ask(cs, m, call).1)
    ensures call.Disable? || !LateWildcard(cs) ==> Ask(cs, m, call).0 == Pure(cs, call)
  {
    DisabledIsDashed(cs, call.name);
  }

  lemma {:induction false} AfterIsCoherent(cs: Names, calls: seq<Call>)
    ensures Coherent(cs, After(cs, FRESH, calls))
  {
    if calls != [] {
      AfterIsCoherent(cs, calls[..|calls| - 1]);
      AskKeepsCoherent(cs, After(cs, FRESH, calls[..|calls| - 1]), calls[|calls| - 1]);
    }
  }

  /** After a late wildcard the same question gets two answers: yes the first time and no the second. */
  lemma LateWildcardForgets(cs: Names, name: string)
    requires LateWildcard(cs) && name !in BeforeWildcard(cs)
    ensures Answer(cs, [], Enable(name)) && !Answer(cs, [Enable(name)], Enable(name))
    ensures Pure(cs, Enable(name))
  {
  }

  /** The memo is invisible, over every sequence of calls, exactly when there is no late wildcard. */
  lemma MemoIsInvisibleIff(cs: Names)
    ensures (forall before, call :: Answer(cs, before, call) == Pure(cs, call)) <==> !LateWildcard(cs)
  {
    if LateWildcard(cs) {
      assert "*" !in BeforeWildcard(cs);
      LateWildcardForgets(cs, "*");
    } else {
      forall before, call
        ensures Answer(cs, before, call) == Pure(cs, call)
      {
        AfterIsCoherent(cs, before);
        AskKeepsCoherent(cs, After(cs, FRESH, before), call);
      }
    }
  }

  /** An empty list, or one that begins with a wildcard, enables everything, after any calls. */
  lemma AllIsAll(rest: Names, before: seq<Call>, name: string)
    ensures Answer([], before, Enable(name))
    ensures Answer(["*"] + rest, before, Enable(name)) && Answer(["all"] + rest, before, Enable(name))
  {
  }

  /** A list without a wildcard enables exactly the names on it that do not begin with a dash, after any calls. */
  lemma ListEnablesItsNames(cs: Names, before: seq<Call>, name: string)
    requires cs != [] && "*" !in cs && "all" !in cs
    ensures Answer(cs, before, Enable(name)) <==> name in cs && (name == "" || name[0] != '-')
  {
    AfterIsCoherent(cs, before);
    AskKeepsCoherent(cs, After(cs, FRESH, before), Enable(name));
    assert !HasWildcard(cs);
  }

  /** `ShouldDisable` agrees with the list in every case. */
  lemma DisableIsAlwaysPure(cs: Names, before: seq<Call>, name: string)
    ensures Answer(cs, before, Disable(name)) == Disables(cs, name)
  {
    AfterIsCoherent(cs, before);
    AskKeepsCoherent(cs, After(cs, FRESH, before), Disable(name));
  }

  // ------------------------------------------------------------ the configuration object

  class Config {
    const components: Names
    var selectedComponents: Option<set<string>>
    var disabledComponents: Option<set<string>>

    constructor (components: Names)
      ensures this.components == components && Memo() == FRESH
    {
      this.components := components;
      selectedComponents, disabledComponents := None, None;
    }

    ghost function Memo(): Memos
      reads this
    {
      Memos(selectedComponents, disabledComponents)
    }

    method ShouldEnable(name: string) returns (shouldEnable: bool)
      modifies this`selectedComponents
      ensures (shouldEnable, Memo()) == Ask(components, old(Memo()), Enable(name))
    {
      if |components| == 0 || components[0] == "*" || components[0] == "all" {
        return true;
      }
      if selectedComponents.None? {
        var selected := {};
        selectedComponents := Some(selected);
        var i := 0;
        while i < |components|
          invariant 0 <= i <= |components| && !HasWildcard(components[..i])
          invariant selected == Selected(components[..i]) && selectedComponents == Some(selected)
        {
          var c := components[i];
          assert components[..i + 1] == components[..i] + [c];
          SelectedSnoc(components[..i], c);
          if c == "*" || c == "all" {
            CutIs(components, i);
            assert c in components;
            return true;
          }
          if !(|c| > 0 && c[0] == '-') {
            selected := selected + {c};
            selectedComponents := Some(selected);
          }
          i := i + 1;
        }
        assert components[..i] == components;
      }
      shouldEnable := name in selectedComponents.value;
    }

    method ShouldDisable(name: string) returns (shouldDisable: bool)
      modifies this`disabledComponents
      ensures (shouldDisable, Memo()) == Ask(components, old(Memo()), Disable(name))
    {
      if |components| == 0 {
        return false;
      }
      if disabledComponents.None? {
        var disabled := DisabledSetOf(components);
        disabledComponents := Some(disabled);
      }
      shouldDisable := name in disabledComponents.value;
    }
  }

  lemma CutIs(cs: Names, i: nat)
    requires i < |cs| && Wildcard(cs[i]) && !HasWildcard(cs[..i])
    ensures BeforeWildcard(cs) == cs[..i]
  {
  }

  lemma SelectedSnoc(s: Names, c: string)
    ensures Selected(s + [c]) == Selected(s) + if Wildcard(c) || Dash(c) then {} else {c}
  {
  }

  /** The dashed entries without their dash; wildcards are not dashed. */
  method DisabledSetOf(cs: Names) returns (disabled: set<string>)
    ensures disabled == Disabled(cs)
  {
    disabled := {};
    var i := 0;
    while i < |cs|
      invariant 0 <= i <= |cs| && disabled == Disabled(cs[..i])
    {
      var c := cs[i];
      assert cs[..i + 1] == cs[..i] + [c];
      if c != "*" && c != "all" && |c| > 0 && c[0] == '-' {
        disabled := disabled + {c[1..]};
      }
      i := i + 1;
    }
    assert cs[..i] == cs;
  }

  // ------------------------------------------------------------ the reported lists

  function Keep(names: Names, p: string -> bool): Names
  {
    if names == [] then []
    else if p(names[|names| - 1]) then Keep(names[..|names| - 1], p) + [names[|names| - 1]]
    else Keep(names[..|names| - 1], p)
  }

  /** `names` is a shuffle of `a` and `b` that keeps the order of each. */
  ghost predicate Shuffle(a: Names, b: Names, names: Names)
  {
    if names == [] then a == [] && b == []
    else
      var last := names[|names| - 1];
      || (a != [] && a[|a| - 1] == last && Shuffle(a[..|a| - 1], b, names[..|names| - 1]))
      || (b != [] && b[|b| - 1] == last && Shuffle(a, b[..|b| - 1], names[..|names| - 1]))
  }

  lemma {:induction false} KeepSplits(names: Names, p: string -> bool, q: string -> bool)
    requires forall n :: q(n) == !p(n)
    ensures Shuffle(Keep(names, p), Keep(names, q), names)
  {
    if names != [] {
      var init, last := names[..|names| - 1], names[|names| - 1];
      KeepSplits(init, p, q);
      var a, b := Keep(init, p), Keep(init, q);
      assert (a + [last])[..|a|] == a && (b + [last])[..|b|] == b;
    }
  }

  lemma {:induction false} KeepMembers(names: Names, p: string -> bool)
    ensures forall n :: n in Keep(names, p) <==> n in names && p(n)
  {
    if names != [] {
      KeepMembers(names[..|names| - 1], p);
      assert names == names[..|names| - 1] + [names[|names| - 1]];
    }
  }

  /**
   `getComponentLists`: enabled and disabled are an order-preserving partition
   of all names, split by `Reports`.
   */
  method GetComponentLists(cs: Names, all: Names) returns (enabled: Names, disabled: Names)
    ensures enabled == Keep(all, n => Reports(cs, n)) && disabled == Keep(all, n => !Reports(cs, n))
    ensures Shuffle(enabled, disabled, all)
    ensures forall n :: n in all ==> (n in enabled <==> n !in disabled)
    ensures cs == [] || cs[0] == "*" || cs[0] == "all" ==> forall n :: n in enabled <==> n in all && ['-'] + n !in cs
    ensures cs != [] && cs[0] != "*" && cs[0] != "all" ==> forall n ::
      n in enabled <==> n in all && ['-'] + n !in cs && n in cs && n != "*" && n != "all" && (n == "" || n[0] != '-')
  {
    enabled, disabled := [], [];
    var disabledSet := DisabledSetOf(cs);
    var allMode := |cs| == 0 || cs[0] == "*" || cs[0] == "all";
    var enabledSet := {};
    if !allMode {
      enabledSet := EnabledSetOf(cs);
    }
    var i := 0;
    while i < |all|
      invariant 0 <= i <= |all|
      invariant enabled == Keep(all[..i], n => Reports(cs, n))
      invariant disabled == Keep(all[..i], n => !Reports(cs, n))
    {
      var name := all[i];
      assert all[..i + 1][..i] == all[..i];
      DisabledIsDashed(cs, name);
      if name in disabledSet {
        disabled := disabled + [name];
      } else if allMode || name in enabledSet {
        enabled := enabled + [name];
      } else {
        disabled := disabled + [name];
      }
      i := i + 1;
    }
    assert all[..i] == all;
    KeepSplits(all, n => Reports(cs, n), n => !Reports(cs, n));
    KeepMembers(all, n => Reports(cs, n));
    KeepMembers(all, n => !Reports(cs, n));
  }

  method EnabledSetOf(cs: Names) returns (enabled: set<string>)
    ensures enabled == Selected(cs)
  {
    enabled := {};
    var i := 0;
    while i < |cs|
      invariant 0 <= i <= |cs| && enabled == Selected(cs[..i])
    {
      var c := cs[i];
      assert cs[..i + 1] == cs[..i] + [c];
      SelectedSnoc(cs[..i], c);
      if !(|c| > 0 && c[0] == '-') && c != "*" && c != "all" {
        enabled := enabled + {c};
      }
      i := i + 1;
    }
    assert cs[..i] == cs;
  }

  // ------------------------------------------------------------ registration

  datatype Component = Component(name: string, enabledByDefault: bool)

  /** `shouldEnableComponent`: its decision and the memo it leaves. */
  function Decide(cs: Names, m: Memos, c: Component): (bool, Memos)
  {
    var (wanted, m1) := if AllMode(cs) then (c.enabledByDefault, m) else Ask(cs, m, Enable(c.name));
    var (unwanted, m2) := Ask(cs, m1, Disable(c.name));
    (wanted && !unwanted, m2)
  }

  function Registered(cs: Names, m: Memos, all: seq<Component>): (Names, Memos)
  {
    if all == [] then ([], m)
    else
      var before := Registered(cs, m, all[..|all| - 1]);
      var last := Decide(cs, before.1, all[|all| - 1]);
      (if last.0 then before.0 + [all[|all| - 1].name] else before.0, last.1)
  }

  method ShouldEnableComponent(config: Config, c: Component) returns (shouldEnable: bool)
    modifies config
    ensures (shouldEnable, config.Memo()) == Decide(config.components, old(config.Memo()), c)
  {
    shouldEnable := c.enabledByDefault;
    if |config.components| > 0 && config.components[0] != "*" && config.components[0] != "all" {
      shouldEnable := config.ShouldEnable(c.name);
    }
    var shouldDisable := config.ShouldDisable(c.name);
    if shouldDisable {
      shouldEnable := false;
    }
  }

  lemma RegisteredNext(cs: Names, m: Memos, all: seq<Component>, i: nat)
    requires i < |all|
    ensures var (names, m1) := Registered(cs, m, all[..i]); var (yes, m2) := Decide(cs, m1, all[i]);
      Registered(cs, m, all[..i + 1]) == (if yes then names + [all[i].name] else names, m2)
  {
    assert all[..i + 1][..i] == all[..i];
  }

  /** The registration loop. */
  method Register(config: Config, all: seq<Component>) returns (names: Names)
    modifies config
    ensures (names, config.Memo()) == Registered(config.components, old(config.Memo()), all)
  {
    names := [];
    var i := 0;
    while i < |all|
      invariant 0 <= i <= |all|
      invariant (names, config.Memo()) == Registered(config.components, old(config.Memo()), all[..i])
    {
      RegisteredNext(config.components, old(config.Memo()), all, i);
      var yes := ShouldEnableComponent(config, all[i]);
      if yes {
        names := names + [all[i].name];
      }
      i := i + 1;
    }
    assert all[..i] == all;
  }

  function NamesOf(all: seq<Component>): (r: Names)
    ensures |r| == |all|
  {
    seq(|all|, i requires 0 <= i < |all| => all[i].name)
  }

  predicate AllDefault(all: seq<Component>)
  {
    forall c :: c in all ==> c.enabledByDefault
  }

  lemma NamesOfInit(all: seq<Component>)
    requires all != []
    ensures NamesOf(all)[..|all| - 1] == NamesOf(all[..|all| - 1])
  {
  }

  /** One decision, over any coherent memo; the default matters exactly when the list selects everything. */
  lemma DecideReports(cs: Names, m: Memos, c: Component)
    requires Coherent(cs, m)
    ensures Coherent(cs, Decide(cs, m, c).1)
    ensures !LateWildcard(cs) ==>
      Decide(cs, m, c).0 == (Reports(cs, c.name) && (AllMode(cs) ==> c.enabledByDefault))
  {
    AskKeepsCoherent(cs, m, Enable(c.name));
    var m1 := if AllMode(cs) then m else Ask(cs, m, Enable(c.name)).1;
    AskKeepsCoherent(cs, m1, Disable(c.name));
  }

  lemma {:induction false} RegisteredReports(cs: Names, m: Memos, all: seq<Component>)
    requires Coherent(cs, m) && !LateWildcard(cs) && AllDefault(all)
    ensures Registered(cs, m, all).0 == Keep(NamesOf(all), n => Reports(cs, n))
    ensures Coherent(cs, Registered(cs, m, all).1)
  {
    if all != [] {
      var init, last := all[..|all| - 1], all[|all| - 1];
      RegisteredReports(cs, m, init);
      NamesOfInit(all);
      DecideReports(cs, Registered(cs, m, init).1, last);
    }
  }

  function LongestName(cs: Names): (n: nat)
    ensures forall c :: c in cs ==> |c| <= n
  {
    if cs == [] then 0 else
      var rest := LongestName(cs[1..]);
      assert cs == [cs[0]] + cs[1..];
      if |cs[0]| > rest then |cs[0]| else rest
  }

  /** Some name is nowhere in the list, with or without a dash. */
  lemma UnlistedName(cs: Names) returns (name: string)
    ensures name !in cs && ['-'] + name !in cs
  {
    name := seq(LongestName(cs) + 1, _ => 'x');
    assert |['-'] + name| == |name| + 1;
  }

  /**
   With every component enabled by default, the server registers exactly the
   reported enabled list, for every list of components, if and only if there is
   no late wildcard.
   */
  lemma RegistersWhatIsReportedIff(cs: Names)
    ensures (forall all | AllDefault(all) :: Registered(cs, FRESH, all).0 == Keep(NamesOf(all), n => Reports(cs, n)))
      <==> !LateWildcard(cs)
  {
    if LateWildcard(cs) {
      var name := UnlistedName(cs);
      var all := [Component(name, true)];
      RegistersUnlisted(cs, name);
      assert Registered(cs, FRESH, all).0 != Keep(NamesOf(all), n => Reports(cs, n));
    } else {
      forall all | AllDefault(all)
        ensures Registered(cs, FRESH, all).0 == Keep(NamesOf(all), n => Reports(cs, n))
      {
        RegisteredReports(cs, FRESH, all);
      }
    }
  }

  /** With a late wildcard, the component asked about first is registered though it is reported as disabled. */
  lemma RegistersUnlisted(cs: Names, name: string)
    requires LateWildcard(cs) && name !in cs && ['-'] + name !in cs
    ensures Registered(cs, FRESH, [Component(name, true)]).0 == [name]
    ensures Keep(NamesOf([Component(name, true)]), n => Reports(cs, n)) == []
  {
    var all := [Component(name, true)];
    assert all[..0] == [] && NamesOf(all) == [name] && [name][..0] == [];
    DisabledIsDashed(cs, name);
    assert Registered(cs, FRESH, all[..0]) == ([], FRESH);
    assert Keep([name][..0], n => Reports(cs, n)) == [];
  }
}
