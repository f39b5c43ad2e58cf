/**
 * The "Profit Engine" simulator (components/ProfitEngine.tsx): a list of
 * active automation modules, toggled one id at a time, and the savings and
 * efficiency figures derived from it.
 */
module ProfitEngine {

  datatype Module = Module(id: string, savings: nat, cost: real)

  /** The six modules on offer; the display name and icon are left out. */
  const Modules: seq<Module> := [
    Module("whatsapp", 15, 0.2),
    Module("crm", 10, 0.1),
    Module("leads", 20, 0.3),
    Module("invoices", 5, 0.05),
    Module("analysis", 25, 0.4),
    Module("calendar", 8, 0.15)
  ]

  /** Every occurrence of `id` dropped, the rest in order. */
  function RemoveAll(s: seq<string>, id: string): (r: seq<string>)
    ensures id !in r
    ensures forall x :: x in r <==> x in s && x != id
    ensures |r| <= |s| && (id in s ==> |r| < |s|)
  {
    if s == [] then []
    else
      assert s == [s[0]] + s[1..];
      (if s[0] == id then [] else [s[0]]) + RemoveAll(s[1..], id)
  }

  /** Removal keeps the multiplicity of every other id. */
  lemma {:induction false} RemoveAllCounts(s: seq<string>, id: string)
    ensures forall x | x != id :: multiset(RemoveAll(s, id))[x] == multiset(s)[x]
  {
    if s != [] {
      RemoveAllCounts(s[1..], id);
      assert s == [s[0]] + s[1..];
    }
  }

  /** Removal distributes over concatenation, so the remaining ids keep their order. */
  lemma {:induction false} RemoveAllAppend(a: seq<string>, b: seq<string>, id: string)
    ensures RemoveAll(a + b, id) == RemoveAll(a, id) + RemoveAll(b, id)
  {
    if a == [] {
      assert a + b == b;
    } else {
      assert (a + b)[0] == a[0] && (a + b)[1..] == a[1..] + b;
      RemoveAllAppend(a[1..], b, id);
      var head := if a[0] == id then [] else [a[0]];
      assert head + (RemoveAll(a[1..], id) + RemoveAll(b, id)) == (head + RemoveAll(a[1..], id)) + RemoveAll(b, id);
    }
  }

  /** Removing an id that does not occur changes nothing. */
  lemma {:induction false} RemoveAllAbsent(s: seq<string>, id: string)
    requires id !in s
    ensures RemoveAll(s, id) == s
  {
    if s != [] {
      assert id !in s[1..];
      RemoveAllAbsent(s[1..], id);
      assert s == [s[0]] + s[1..];
    }
  }

  /** A click on module `id`: switch it off if it is active, otherwise append it. */
  function Toggle(active: seq<string>, id: string): (r: seq<string>)
    ensures id !in active ==> r == active + [id]
    ensures id in active ==> id !in r && |r| < |active|
    ensures forall x | x != id :: multiset(r)[x] == multiset(active)[x]
  {
    if id in active then
      RemoveAllCounts(active, id);
      RemoveAll(active, id)
    else active + [id]
  }

  /** No id occurs twice. */
  predicate NoDuplicates(s: seq<string>) {
    forall x | x in multiset(s) :: multiset(s)[x] == 1
  }

  /** Toggling never introduces a duplicate. */
  lemma ToggleKeepsNoDuplicates(active: seq<string>, id: string)
    requires NoDuplicates(active)
    ensures NoDuplicates(Toggle(active, id))
  {
    var r := Toggle(active, id);
    forall x | x in multiset(r) ensures multiset(r)[x] == 1 {
      if x == id {
        assert id !in active;
        assert multiset(r) == multiset(active) + multiset{id};
      }
    }
  }

  /** Toggling an inactive id twice gives back exactly the same list. */
  lemma ToggleTwiceAbsent(active: seq<string>, id: string)
    requires id !in active
    ensures Toggle(Toggle(active, id), id) == active
  {
    RemoveAllAppend(active, [id], id);
    RemoveAllAbsent(active, id);
    assert RemoveAll([id], id) == [];
  }

  /** Toggling an id twice restores the same set of active ids. */
  lemma ToggleTwiceSameIds(active: seq<string>, id: string)
    ensures forall x :: x in Toggle(Toggle(active, id), id) <==> x in active
  {
    if id !in active {
      ToggleTwiceAbsent(active, id);
    } else {
      var r := Toggle(Toggle(active, id), id);
      forall x ensures x in r <==> x in active {
        if x != id {
          assert multiset(r)[x] == multiset(active)[x];
        }
      }
    }
  }

  /** ... but not necessarily in the same order: the id moves to the end. */
  lemma ToggleTwiceMayReorder()
    ensures Toggle(Toggle(["crm", "whatsapp"], "crm"), "crm") == ["whatsapp", "crm"]
  {
    assert "crm" != "whatsapp";
  }

  /** The modules among `mods` whose id is active, in `mods` order. */
  function SelectedFrom(mods: seq<Module>, active: seq<string>): (r: seq<Module>)
    ensures |r| <= |mods|
    ensures forall m | m in r :: m in mods && m.id in active
    ensures forall m | m in mods && m.id in active :: m in r
  {
    if mods == [] then []
    else (if mods[0].id in active then [mods[0]] else []) + SelectedFrom(mods[1..], active)
  }

  /** Selection distributes over concatenation, so the selected modules keep their list order. */
  lemma {:induction false} SelectedFromAppend(a: seq<Module>, b: seq<Module>, active: seq<string>)
    ensures SelectedFrom(a + b, active) == SelectedFrom(a, active) + SelectedFrom(b, active)
  {
    if a == [] {
      assert a + b == b;
    } else {
      assert (a + b)[0] == a[0] && (a + b)[1..] == a[1..] + b;
      SelectedFromAppend(a[1..], b, active);
    }
  }

  function Sum(mods: seq<Module>): nat {
    if mods == [] then 0 else mods[0].savings + Sum(mods[1..])
  }

  /** The combined savings of the modules in `mods` that carry `id` (one module or none in `Modules`). */
  function SavingsOfId(mods: seq<Module>, id: string): nat {
    if mods == [] then 0 else (if mods[0].id == id then mods[0].savings else 0) + SavingsOfId(mods[1..], id)
  }

  /** `selected` of the component. */
  function Selected(active: seq<string>): seq<Module> {
    SelectedFrom(Modules, active)
  }

  /** `totalSavings` of the component, also shown as the percentage profit growth. */
  function TotalSavings(active: seq<string>): nat {
    Sum(Selected(active))
  }

  /** `efficiency` of the component: 16.6 per selected module. */
  function Efficiency(active: seq<string>): (e: real)
    ensures e == 16.6 * |Selected(active)| as real
    ensures 0.0 <= e <= 99.6
    ensures e == 0.0 <==> Selected(active) == []
  {
    |Selected(active)| as real * 16.6
  }

  /** The displayed monthly hours saved. */
  function MonthlyHours(active: seq<string>): (h: nat)
    ensures h % 4 == 0 && h / 4 == TotalSavings(active)
    ensures h <= 332
  {
    var t := TotalSavings(active);
    TotalSavingsBounded(active);
    QuarterOfFourTimes(t);
    t * 4
  }

  lemma QuarterOfFourTimes(t: nat)
    ensures (t * 4) % 4 == 0 && (t * 4) / 4 == t
  {
  }

  /** The call-to-action link is live once a module is active. */
  predicate CtaEnabled(active: seq<string>) {
    |active| > 0
  }

  lemma {:induction false} SelectedSumBounded(mods: seq<Module>, active: seq<string>)
    ensures Sum(SelectedFrom(mods, active)) <= Sum(mods)
  {
    if mods != [] {
      SelectedSumBounded(mods[1..], active);
      var head := if mods[0].id in active then [mods[0]] else [];
      SumAppend(head, SelectedFrom(mods[1..], active));
    }
  }

  /** The savings lie between 0 and 83, the sum over all six modules. */
  lemma TotalSavingsBounded(active: seq<string>)
    ensures TotalSavings(active) <= 83
  {
    SelectedSumBounded(Modules, active);
    assert Sum(Modules) == 83;
  }

  /** Only which ids are active matters, not their order or repetition. */
  lemma {:induction false} SelectedDependsOnIdsOnly(mods: seq<Module>, a: seq<string>, b: seq<string>)
    requires forall x :: x in a <==> x in b
    ensures SelectedFrom(mods, a) == SelectedFrom(mods, b)
  {
    if mods != [] {
      SelectedDependsOnIdsOnly(mods[1..], a, b);
    }
  }

  /** Adding the id `id` to the active set adds exactly the savings of the modules carrying it. */
  lemma {:induction false} SavingsAddId(mods: seq<Module>, small: seq<string>, big: seq<string>, id: string)
    requires id !in small
    requires forall x :: x in big <==> x in small || x == id
    ensures Sum(SelectedFrom(mods, big)) == Sum(SelectedFrom(mods, small)) + SavingsOfId(mods, id)
  {
    if mods != [] {
      SavingsAddId(mods[1..], small, big, id);
      var head := if mods[0].id in big then [mods[0]] else [];
      assert SelectedFrom(mods, big) == head + SelectedFrom(mods[1..], big);
      SumAppend(head, SelectedFrom(mods[1..], big));
      var head' := if mods[0].id in small then [mods[0]] else [];
      assert SelectedFrom(mods, small) == head' + SelectedFrom(mods[1..], small);
      SumAppend(head', SelectedFrom(mods[1..], small));
    }
  }

  lemma {:induction false} SumAppend(a: seq<Module>, b: seq<Module>)
    ensures Sum(a + b) == Sum(a) + Sum(b)
  {
    if a == [] {
      assert a + b == b;
    } else {
      assert (a + b)[1..] == a[1..] + b;
      SumAppend(a[1..], b);
    }
  }

  /** An id that no module carries has no savings. */
  lemma {:induction false} SavingsOfUnknownId(mods: seq<Module>, id: string)
    requires forall k | 0 <= k < |mods| :: mods[k].id != id
    ensures SavingsOfId(mods, id) == 0
  {
    if mods != [] {
      assert mods[0].id != id;
      SavingsOfUnknownId(mods[1..], id);
    }
  }

  /** An id outside the module list changes no figure when toggled. */
  lemma UnknownIdSavesNothing(active: seq<string>, id: string)
    requires forall k | 0 <= k < |Modules| :: Modules[k].id != id
    ensures TotalSavings(Toggle(active, id)) == TotalSavings(active)
  {
    SavingsOfUnknownId(Modules, id);
    ToggleSavings(active, id);
  }

  /** Each module id names exactly one module. */
  lemma SavingsOfKnownId(k: nat)
    requires k < |Modules|
    ensures SavingsOfId(Modules, Modules[k].id) == Modules[k].savings
  {
    IdsDistinct();
    SavingsOfIdAt(Modules, k);
  }

  /** No two modules share an id. */
  lemma IdsDistinct()
    ensures forall i, j | 0 <= i < j < |Modules| :: Modules[i].id != Modules[j].id
  {
    assert forall i, j | 0 <= i < j < |Modules| :: Modules[i].id[0] != Modules[j].id[0] || |Modules[i].id| != |Modules[j].id|;
  }

  /** When only the module at `k` carries its id, that id saves exactly that module's savings. */
  lemma {:induction false} SavingsOfIdAt(mods: seq<Module>, k: nat)
    requires k < |mods|
    requires forall i, j | 0 <= i < j < |mods| :: mods[i].id != mods[j].id
    ensures SavingsOfId(mods, mods[k].id) == mods[k].savings
  {
    var id := mods[k].id;
    if k == 0 {
      SavingsOfUnknownId(mods[1..], id);
    } else {
      SavingsOfIdAt(mods[1..], k - 1);
      assert mods[0].id != id;
    }
  }

  /** Switching a module on adds its savings; switching it off takes them away. */
  lemma ToggleSavings(active: seq<string>, id: string)
    ensures id !in active ==> TotalSavings(Toggle(active, id)) == TotalSavings(active) + SavingsOfId(Modules, id)
    ensures id in active ==> TotalSavings(Toggle(active, id)) + SavingsOfId(Modules, id) == TotalSavings(active)
  {
    var r := Toggle(active, id);
    if id !in active {
      SavingsAddId(Modules, active, r, id);
    } else {
      forall x ensures x in active <==> x in r || x == id {
        if x != id {
          assert multiset(r)[x] == multiset(active)[x];
        }
      }
      SavingsAddId(Modules, r, active, id);
    }
  }

  /** The number of modules in `mods` that carry `id` (one module or none in `Modules`). */
  function CountOfId(mods: seq<Module>, id: string): nat {
    if mods == [] then 0 else (if mods[0].id == id then 1 else 0) + CountOfId(mods[1..], id)
  }

  /** Adding the id `id` to the active set selects exactly the modules carrying it in addition. */
  lemma {:induction false} CountAddId(mods: seq<Module>, small: seq<string>, big: seq<string>, id: string)
    requires id !in small
    requires forall x :: x in big <==> x in small || x == id
    ensures |SelectedFrom(mods, big)| == |SelectedFrom(mods, small)| + CountOfId(mods, id)
  {
    if mods != [] {
      CountAddId(mods[1..], small, big, id);
      var head := if mods[0].id in big then [mods[0]] else [];
      assert SelectedFrom(mods, big) == head + SelectedFrom(mods[1..], big);
      var head' := if mods[0].id in small then [mods[0]] else [];
      assert SelectedFrom(mods, small) == head' + SelectedFrom(mods[1..], small);
    }
  }

  /** An id that no module carries is carried by no module. */
  lemma {:induction false} CountOfUnknown(mods: seq<Module>, id: string)
    requires forall k | 0 <= k < |mods| :: mods[k].id != id
    ensures CountOfId(mods, id) == 0
  {
    if mods != [] {
      assert mods[0].id != id;
      CountOfUnknown(mods[1..], id);
    }
  }

  /** When only the module at `k` carries its id, exactly one module carries it. */
  lemma {:induction false} CountOfIdAt(mods: seq<Module>, k: nat)
    requires k < |mods|
    requires forall i, j | 0 <= i < j < |mods| :: mods[i].id != mods[j].id
    ensures CountOfId(mods, mods[k].id) == 1
  {
    var id := mods[k].id;
    if k == 0 {
      CountOfUnknown(mods[1..], id);
    } else {
      CountOfIdAt(mods[1..], k - 1);
      assert mods[0].id != id;
    }
  }

  /** Switching module `k` on raises the efficiency by exactly 16.6; switching it off lowers it by 16.6. */
  lemma ToggleEfficiency(active: seq<string>, k: nat)
    requires k < |Modules|
    ensures Modules[k].id !in active ==> Efficiency(Toggle(active, Modules[k].id)) == Efficiency(active) + 16.6
    ensures Modules[k].id in active ==> Efficiency(Toggle(active, Modules[k].id)) + 16.6 == Efficiency(active)
  {
    var id := Modules[k].id;
    var r := Toggle(active, id);
    IdsDistinct();
    CountOfIdAt(Modules, k);
    if id !in active {
      CountAddId(Modules, active, r, id);
    } else {
      forall x ensures x in active <==> x in r || x == id {
        if x != id {
          assert multiset(r)[x] == multiset(active)[x];
        }
      }
      CountAddId(Modules, r, active, id);
    }
  }

  /** The lists the page can reach: module ids only, each at most once. */
  ghost predicate Reachable(active: seq<string>) {
    NoDuplicates(active) && forall x | x in active :: exists k | 0 <= k < |Modules| :: Modules[k].id == x
  }

  /** Clicking a module's button keeps the list reachable. */
  lemma ToggleKeepsReachable(active: seq<string>, k: nat)
    requires Reachable(active) && k < |Modules|
    ensures Reachable(Toggle(active, Modules[k].id))
  {
    ToggleKeepsNoDuplicates(active, Modules[k].id);
    var r := Toggle(active, Modules[k].id);
    forall x | x in r ensures exists j | 0 <= j < |Modules| :: Modules[j].id == x {
      if x != Modules[k].id {
        assert multiset(r)[x] == multiset(active)[x];
        assert x in multiset(active);
        assert x in active;
      }
    }
  }

  /** On a reachable list the call to action is live exactly when there are savings to show. */
  lemma CtaIffSavings(active: seq<string>)
    requires Reachable(active)
    ensures CtaEnabled(active) <==> TotalSavings(active) > 0
  {
    if |active| > 0 {
      assert active[0] in active;
      var k :| 0 <= k < |Modules| && Modules[k].id == active[0];
      ActiveModuleSaves(active, k);
      ModuleSavesSomething(k);
    } else {
      NothingActiveSavesNothing(active);
    }
  }

  /** Every module on offer saves a positive number of hours. */
  lemma ModuleSavesSomething(k: nat)
    requires k < |Modules|
    ensures Modules[k].savings > 0
  {
  }

  /** With no module active nothing is selected, so there are no savings. */
  lemma NothingActiveSavesNothing(active: seq<string>)
    requires active == []
    ensures Selected(active) == [] && TotalSavings(active) == 0
  {
    NothingSelectedFrom(Modules, active);
  }

  lemma {:induction false} NothingSelectedFrom(mods: seq<Module>, active: seq<string>)
    requires active == []
    ensures SelectedFrom(mods, active) == []
  {
    if mods != [] {
      NothingSelectedFrom(mods[1..], active);
      assert mods[0].id !in active;
    }
  }

  lemma ActiveModuleSaves(active: seq<string>, k: nat)
    requires k < |Modules| && Modules[k].id in active
    ensures TotalSavings(active) >= Modules[k].savings
  {
    var id := Modules[k].id;
    var small := RemoveAll(active, id);
    SavingsAddId(Modules, small, active, id);
    SavingsOfKnownId(k);
  }
}
