/** Macro expansion in a model's configuration (proxy/config/config.go): one pass over the merged macro
    list, last entry first, against full recursive expansion. */
module MacroText {
  // A string as the substitution sees it: characters, ${name} references, and ${env.NAME} references
  // that environment substitution did not resolve.
  datatype Token = Lit(ch: char) | Ref(name: string) | Env(variable: string)

  type Text = seq<Token>

  // A scalar: a string, or any other type together with what %v prints for it.
  datatype Value = Str(text: Text) | Other(kind: string, shown: string)

  datatype Macro = Macro(name: string, value: Value)

  function Chars(s: string): (t: Text)
    ensures |t| == |s| && forall k :: 0 <= k < |t| ==> t[k] == Lit(s[k])
  {
    if s == "" then [] else [Lit(s[0])] + Chars(s[1..])
  }

  function Show(v: Value): Text {
    match v
    case Str(t) => t
    case Other(_, s) => Chars(s)
  }

  // Replaces every ${name} by the substitute.
  function SubText(t: Text, name: string, subst: Text): Text {
    if t == [] then []
    else (if t[0] == Ref(name) then subst else [t[0]]) + SubText(t[1..], name, subst)
  }

  // The pass: entries n-1 down to 0.
  function LifoText(macros: seq<Macro>, n: nat, t: Text): Text
    requires n <= |macros|
  {
    if n == 0 then t
    else LifoText(macros, n - 1, SubText(t, macros[n - 1].name, Show(macros[n - 1].value)))
  }

  // The last of the first n entries that declares the name, or -1.
  function Lookup(macros: seq<Macro>, n: nat, name: string): (i: int)
    requires n <= |macros|
    ensures -1 <= i < n
    ensures i >= 0 ==> macros[i].name == name
    ensures forall k :: i < k < n ==> macros[k].name != name
  {
    if n == 0 then -1
    else if macros[n - 1].name == name then n - 1
    else Lookup(macros, n - 1, name)
  }

  // Full recursive expansion, in which a macro sees the entries before it.
  function ExpandText(macros: seq<Macro>, n: nat, t: Text): Text
    requires n <= |macros|
    decreases n, |t|
  {
    if t == [] then []
    else
      (if t[0].Ref? && Lookup(macros, n, t[0].name) >= 0 then
         var i := Lookup(macros, n, t[0].name);
         ExpandText(macros, i, Show(macros[i].value))
       else [t[0]])
      + ExpandText(macros, n, t[1..])
  }

  lemma {:induction false} ExpandConcat(macros: seq<Macro>, n: nat, s: Text, t: Text)
    requires n <= |macros|
    ensures ExpandText(macros, n, s + t) == ExpandText(macros, n, s) + ExpandText(macros, n, t)
    decreases |s|
  {
    if s == [] {
      assert s + t == t;
    } else {
      assert (s + t)[1..] == s[1..] + t;
      ExpandConcat(macros, n, s[1..], t);
    }
  }

  // What one token expands to.
  function ExpandToken(macros: seq<Macro>, n: nat, x: Token): Text
    requires n <= |macros|
  {
    if x.Ref? && Lookup(macros, n, x.name) >= 0 then
      var i := Lookup(macros, n, x.name);
      ExpandText(macros, i, Show(macros[i].value))
    else [x]
  }

  lemma {:induction false} ExpandCons(macros: seq<Macro>, n: nat, x: Token, rest: Text)
    requires n <= |macros|
    ensures ExpandText(macros, n, [x] + rest) == ExpandToken(macros, n, x) + ExpandText(macros, n, rest)
  {
    assert ([x] + rest)[1..] == rest;
  }

  lemma {:induction false} OtherTokenPassesEntry(macros: seq<Macro>, n: nat, x: Token)
    requires 0 < n <= |macros| && x != Ref(macros[n - 1].name)
    ensures ExpandToken(macros, n, x) == ExpandToken(macros, n - 1, x)
  {
  }

  // Substituting the last entry first leaves the rest of the expansion to the entries before it.
  lemma {:induction false} SubThenExpand(macros: seq<Macro>, n: nat, t: Text)
    requires 0 < n <= |macros|
    ensures ExpandText(macros, n - 1, SubText(t, macros[n - 1].name, Show(macros[n - 1].value)))
            == ExpandText(macros, n, t)
    decreases |t|
  {
    if t != [] {
      var name, subst := macros[n - 1].name, Show(macros[n - 1].value);
      var rest := SubText(t[1..], name, subst);
      SubThenExpand(macros, n, t[1..]);
      assert t == [t[0]] + t[1..];
      ExpandCons(macros, n, t[0], t[1..]);
      if t[0] == Ref(name) {
        ExpandConcat(macros, n - 1, subst, rest);
      } else {
        ExpandCons(macros, n - 1, t[0], rest);
        OtherTokenPassesEntry(macros, n, t[0]);
      }
    }
  }

  // One pass from last to first is full recursive expansion, for every macro list and every text.
  lemma {:induction false} LifoIsExpansion(macros: seq<Macro>, n: nat, t: Text)
    requires n <= |macros|
    ensures LifoText(macros, n, t) == ExpandText(macros, n, t)
    decreases n
  {
    if n == 0 {
      NothingDeclaredNothingExpanded(macros, t);
    } else {
      LifoIsExpansion(macros, n - 1, SubText(t, macros[n - 1].name, Show(macros[n - 1].value)));
      SubThenExpand(macros, n, t);
    }
  }

  lemma {:induction false} NothingDeclaredNothingExpanded(macros: seq<Macro>, t: Text)
    ensures ExpandText(macros, 0, t) == t
    decreases |t|
  {
    if t != [] {
      NothingDeclaredNothingExpanded(macros, t[1..]);
    }
  }

  // ---- when no declared reference is left ----

  ghost predicate Declared(macros: seq<Macro>, name: string) {
    Lookup(macros, |macros|, name) >= 0
  }

  ghost predicate NoneLeft(macros: seq<Macro>, t: Text) {
    forall k :: 0 <= k < |t| && t[k].Ref? ==> !Declared(macros, t[k].name)
  }

  // Every declared name in t is declared among the first n entries.
  ghost predicate RefersBelow(macros: seq<Macro>, n: nat, t: Text)
    requires n <= |macros|
  {
    forall k :: 0 <= k < |t| && t[k].Ref? && Declared(macros, t[k].name) ==> Lookup(macros, n, t[k].name) >= 0
  }

  // Each macro refers only to entries before it.
  ghost predicate EarlierOnly(macros: seq<Macro>) {
    forall i :: 0 <= i < |macros| ==> RefersBelow(macros, i, Show(macros[i].value))
  }

  ghost predicate DistinctNames(macros: seq<Macro>) {
    forall i, j :: 0 <= i < j < |macros| ==> macros[i].name != macros[j].name
  }

  lemma {:induction false} NoneLeftConcat(macros: seq<Macro>, s: Text, t: Text)
    requires NoneLeft(macros, s) && NoneLeft(macros, t)
    ensures NoneLeft(macros, s + t)
  {
  }

  lemma {:induction false} ExpansionLeavesNone(macros: seq<Macro>, n: nat, t: Text)
    requires n <= |macros| && EarlierOnly(macros) && RefersBelow(macros, n, t)
    ensures NoneLeft(macros, ExpandText(macros, n, t))
    decreases n, |t|
  {
    if t != [] {
      assert RefersBelow(macros, n, t[1..]);
      ExpansionLeavesNone(macros, n, t[1..]);
      if t[0].Ref? && Lookup(macros, n, t[0].name) >= 0 {
        var i := Lookup(macros, n, t[0].name);
        ExpansionLeavesNone(macros, i, Show(macros[i].value));
        NoneLeftConcat(macros, ExpandText(macros, i, Show(macros[i].value)), ExpandText(macros, n, t[1..]));
      } else {
        NoneLeftConcat(macros, [t[0]], ExpandText(macros, n, t[1..]));
      }
    }
  }

  // A reference no entry below n declares stays.
  lemma {:induction false} UnknownStays(macros: seq<Macro>, n: nat, t: Text, k: nat)
    requires n <= |macros| && k < |t| && t[k].Ref? && Lookup(macros, n, t[k].name) < 0
    ensures t[k] in ExpandText(macros, n, t)
    decreases k
  {
    if k > 0 {
      UnknownStays(macros, n, t[1..], k - 1);
    }
  }

  lemma {:induction false} ExpandOneRef(macros: seq<Macro>, n: nat, name: string)
    requires n <= |macros| && Lookup(macros, n, name) >= 0
    ensures var i := Lookup(macros, n, name);
      ExpandText(macros, n, [Ref(name)]) == ExpandText(macros, i, Show(macros[i].value))
  {
    assert [Ref(name)][1..] == [];
  }

  lemma {:induction false} DistinctLookup(macros: seq<Macro>, i: nat)
    requires DistinctNames(macros) && i < |macros|
    ensures Lookup(macros, |macros|, macros[i].name) == i
  {
  }

  // A macro that refers to itself or to a later entry leaves that reference behind.
  lemma {:induction false} LateReferenceStays(macros: seq<Macro>, i: nat, k: nat)
    requires DistinctNames(macros) && i < |macros|
    requires var shown := Show(macros[i].value);
      k < |shown| && shown[k].Ref? && Declared(macros, shown[k].name) && Lookup(macros, i, shown[k].name) < 0
    ensures !NoneLeft(macros, LifoText(macros, |macros|, [Ref(macros[i].name)]))
  {
    LifoIsExpansion(macros, |macros|, [Ref(macros[i].name)]);
    DistinctLookup(macros, i);
    ExpandOneRef(macros, |macros|, macros[i].name);
    UnknownStays(macros, i, Show(macros[i].value), k);
  }

  lemma {:induction false} EarlierOnlyLeavesNone(macros: seq<Macro>, t: Text)
    requires EarlierOnly(macros)
    ensures NoneLeft(macros, LifoText(macros, |macros|, t))
  {
    LifoIsExpansion(macros, |macros|, t);
    ExpansionLeavesNone(macros, |macros|, t);
  }

  // The pass removes every declared reference from every text exactly when no macro refers to itself or
  // to a later entry.
  lemma {:induction false} NoDeclaredReferenceLeftIff(macros: seq<Macro>)
    requires DistinctNames(macros)
    ensures (forall t: Text :: NoneLeft(macros, LifoText(macros, |macros|, t))) <==> EarlierOnly(macros)
  {
    if EarlierOnly(macros) {
      forall t: Text
        ensures NoneLeft(macros, LifoText(macros, |macros|, t))
      {
        EarlierOnlyLeavesNone(macros, t);
      }
    } else {
      var i :| 0 <= i < |macros| && !RefersBelow(macros, i, Show(macros[i].value));
      var shown := Show(macros[i].value);
      var k :| 0 <= k < |shown| && shown[k].Ref?
               && Declared(macros, shown[k].name) && Lookup(macros, i, shown[k].name) < 0;
      LateReferenceStays(macros, i, k);
    }
  }
}

/** The same pass over nested metadata, where a leaf that is exactly one reference takes the macro's type. */
module MacroMeta {
  import opened MacroText

  datatype Meta = Leaf(value: Value) | List(items: seq<Meta>) | Dict(fields: map<string, Meta>)

  function SubValue(v: Value, name: string, subst: Value): Value {
    match v
    case Other(_, _) => v
    case Str(t) => if t == [Ref(name)] then subst else Str(SubText(t, name, Show(subst)))
  }

  function LifoValue(macros: seq<Macro>, n: nat, v: Value): Value
    requires n <= |macros|
  {
    if n == 0 then v else LifoValue(macros, n - 1, SubValue(v, macros[n - 1].name, macros[n - 1].value))
  }

  // What a leaf should become: through any chain of single references the value at its end, type and
  // all; and a string whenever the text is anything but one reference.
  function ExpandValue(macros: seq<Macro>, n: nat, v: Value): Value
    requires n <= |macros|
    decreases n
  {
    match v
    case Other(_, _) => v
    case Str(t) =>
      if |t| == 1 && t[0].Ref? && Lookup(macros, n, t[0].name) >= 0 then
        var i := Lookup(macros, n, t[0].name);
        ExpandValue(macros, i, macros[i].value)
      else Str(ExpandText(macros, n, t))
  }

  lemma {:induction false} CharsAreKept(macros: seq<Macro>, n: nat, s: string)
    requires n <= |macros|
    ensures ExpandText(macros, n, Chars(s)) == Chars(s)
    decreases |s|
  {
    if s != "" {
      CharsAreKept(macros, n, s[1..]);
      assert Chars(s)[1..] == Chars(s[1..]);
    }
  }

  lemma {:induction false} CharsAreNotSubstituted(s: string, name: string, subst: Text)
    ensures SubText(Chars(s), name, subst) == Chars(s)
  {
    if s != "" {
      CharsAreNotSubstituted(s[1..], name, subst);
      assert Chars(s)[1..] == Chars(s[1..]);
    }
  }

  lemma {:induction false} ShowSub(v: Value, name: string, subst: Value)
    ensures Show(SubValue(v, name, subst)) == SubText(Show(v), name, Show(subst))
  {
    match v
    case Other(_, s) => CharsAreNotSubstituted(s, name, Show(subst));
    case Str(t) =>
      if t == [Ref(name)] {
        assert t[1..] == [];
      }
  }

  // The text a leaf shows never depends on types.
  lemma {:induction false} LifoShows(macros: seq<Macro>, n: nat, v: Value)
    requires n <= |macros|
    ensures Show(LifoValue(macros, n, v)) == LifoText(macros, n, Show(v))
    decreases n
  {
    if n > 0 {
      LifoShows(macros, n - 1, SubValue(v, macros[n - 1].name, macros[n - 1].value));
      ShowSub(v, macros[n - 1].name, macros[n - 1].value);
    }
  }

  lemma {:induction false} ExpandShows(macros: seq<Macro>, n: nat, v: Value)
    requires n <= |macros|
    ensures Show(ExpandValue(macros, n, v)) == ExpandText(macros, n, Show(v))
    decreases n
  {
    match v
    case Other(_, s) => CharsAreKept(macros, n, s);
    case Str(t) =>
      if |t| == 1 && t[0].Ref? && Lookup(macros, n, t[0].name) >= 0 {
        var i := Lookup(macros, n, t[0].name);
        ExpandShows(macros, i, macros[i].value);
        assert t == [Ref(t[0].name)];
        ExpandOneRef(macros, n, t[0].name);
      }
  }

  // A later entry that shows as nothing can strip a text down to one reference to an earlier entry that
  // is not a string.
  ghost predicate Leaks(macros: seq<Macro>, n: nat)
    requires n <= |macros|
  {
    exists i, j :: 0 <= i < j < n && macros[i].value.Other? && Show(macros[j].value) == []
  }

  ghost predicate AllStrings(macros: seq<Macro>, n: nat)
    requires n <= |macros|
  {
    forall i :: 0 <= i < n ==> macros[i].value.Str?
  }

  lemma {:induction false} StringsStayStrings(macros: seq<Macro>, n: nat, v: Value)
    requires n <= |macros| && AllStrings(macros, n) && v.Str?
    ensures ExpandValue(macros, n, v).Str?
    decreases n
  {
    var t := v.text;
    if |t| == 1 && t[0].Ref? && Lookup(macros, n, t[0].name) >= 0 {
      var i := Lookup(macros, n, t[0].name);
      StringsStayStrings(macros, i, macros[i].value);
    }
  }

  lemma {:induction false} SubNeverShrinks(t: Text, name: string, subst: Text)
    requires subst != []
    ensures |SubText(t, name, subst)| >= |t|
  {
    if t != [] {
      SubNeverShrinks(t[1..], name, subst);
    }
  }

  lemma {:induction false} NoLeakBelowNothing(macros: seq<Macro>, n: nat)
    requires 0 < n <= |macros| && !Leaks(macros, n) && Show(macros[n - 1].value) == []
    ensures AllStrings(macros, n - 1)
  {
  }

  // A text that is not one reference becomes a string, unless the list leaks.
  lemma {:induction false} MixedTextBecomesString(macros: seq<Macro>, n: nat, t: Text)
    requires 0 < n <= |macros| && !Leaks(macros, n) && |t| != 1
    ensures ExpandValue(macros, n - 1, Str(SubText(t, macros[n - 1].name, Show(macros[n - 1].value)))).Str?
  {
    var subst := Show(macros[n - 1].value);
    var t' := SubText(t, macros[n - 1].name, subst);
    if subst == [] {
      NoLeakBelowNothing(macros, n);
      StringsStayStrings(macros, n - 1, Str(t'));
    } else {
      SubNeverShrinks(t, macros[n - 1].name, subst);
      assert |t'| != 1;
    }
  }

  lemma {:induction false} SameShowSameString(u: Value, v: Value)
    requires u.Str? && v.Str? && Show(u) == Show(v)
    ensures u == v
  {
  }

  lemma {:induction false} OneTokenSub(t: Text, name: string, subst: Text)
    requires |t| == 1 && t[0] != Ref(name)
    ensures SubText(t, name, subst) == t
  {
    assert t[1..] == [];
  }

  // One token that is not the last entry's: neither the substitution nor the expansion sees that entry.
  lemma {:induction false} OneTokenPassesEntry(macros: seq<Macro>, n: nat, t: Text)
    requires 0 < n <= |macros| && |t| == 1 && t[0] != Ref(macros[n - 1].name)
    ensures SubText(t, macros[n - 1].name, Show(macros[n - 1].value)) == t
    ensures ExpandValue(macros, n, Str(t)) == ExpandValue(macros, n - 1, Str(t))
  {
    OneTokenSub(t, macros[n - 1].name, Show(macros[n - 1].value));
    SubThenExpand(macros, n, t);
  }

  // A text of any other length expands to a string, the same with the last entry substituted or not.
  lemma {:induction false} MixedTextExpands(macros: seq<Macro>, n: nat, t: Text)
    requires 0 < n <= |macros| && !Leaks(macros, n) && |t| != 1
    ensures var m := macros[n - 1];
      ExpandValue(macros, n - 1, Str(SubText(t, m.name, Show(m.value)))) == ExpandValue(macros, n, Str(t))
  {
    var m := macros[n - 1];
    var v' := Str(SubText(t, m.name, Show(m.value)));
    MixedTextBecomesString(macros, n, t);
    ExpandShows(macros, n - 1, v');
    SubThenExpand(macros, n, t);
    SameShowSameString(ExpandValue(macros, n - 1, v'), ExpandValue(macros, n, Str(t)));
  }

  lemma {:induction false} FewerLeakNoMore(macros: seq<Macro>, n: nat)
    requires 0 < n <= |macros| && !Leaks(macros, n)
    ensures !Leaks(macros, n - 1)
  {
  }

  lemma {:induction false} LeafExpansion(macros: seq<Macro>, n: nat, v: Value)
    requires n <= |macros| && !Leaks(macros, n)
    ensures LifoValue(macros, n, v) == ExpandValue(macros, n, v)
    decreases n
  {
    if n == 0 {
      if v.Str? {
        NothingDeclaredNothingExpanded(macros, v.text);
      }
    } else {
      var m := macros[n - 1];
      FewerLeakNoMore(macros, n);
      LeafExpansion(macros, n - 1, SubValue(v, m.name, m.value));
      if v.Str? && |v.text| != 1 {
        MixedTextExpands(macros, n, v.text);
      } else if v.Str? && v.text[0] != Ref(m.name) {
        OneTokenPassesEntry(macros, n, v.text);
      }
    }
  }

  // ---- trees ----

  function SubMeta(m: Meta, name: string, subst: Value): Meta {
    match m
    case Leaf(v) => Leaf(SubValue(v, name, subst))
    case List(items) => List(seq(|items|, i requires 0 <= i < |items| => SubMeta(items[i], name, subst)))
    case Dict(fields) => Dict(map k | k in fields :: SubMeta(fields[k], name, subst))
  }

  function LifoMeta(macros: seq<Macro>, n: nat, m: Meta): Meta
    requires n <= |macros|
  {
    if n == 0 then m else LifoMeta(macros, n - 1, SubMeta(m, macros[n - 1].name, macros[n - 1].value))
  }

  function ExpandMeta(macros: seq<Macro>, m: Meta): Meta {
    match m
    case Leaf(v) => Leaf(ExpandValue(macros, |macros|, v))
    case List(items) => List(seq(|items|, i requires 0 <= i < |items| => ExpandMeta(macros, items[i])))
    case Dict(fields) => Dict(map k | k in fields :: ExpandMeta(macros, fields[k]))
  }

  lemma {:induction false} LifoLeaf(macros: seq<Macro>, n: nat, v: Value)
    requires n <= |macros|
    ensures LifoMeta(macros, n, Leaf(v)) == Leaf(LifoValue(macros, n, v))
    decreases n
  {
    if n > 0 {
      LifoLeaf(macros, n - 1, SubValue(v, macros[n - 1].name, macros[n - 1].value));
    }
  }

  // The pass keeps the shape of the tree and treats every child on its own.
  lemma {:induction false} LifoList(macros: seq<Macro>, n: nat, m: Meta)
    requires n <= |macros| && m.List?
    ensures var r := LifoMeta(macros, n, m);
      && r.List? && |r.items| == |m.items|
      && forall i :: 0 <= i < |m.items| ==> r.items[i] == LifoMeta(macros, n, m.items[i])
    decreases n
  {
    if n > 0 {
      LifoList(macros, n - 1, SubMeta(m, macros[n - 1].name, macros[n - 1].value));
    }
  }

  lemma {:induction false} LifoDict(macros: seq<Macro>, n: nat, m: Meta)
    requires n <= |macros| && m.Dict?
    ensures var r := LifoMeta(macros, n, m);
      && r.Dict? && r.fields.Keys == m.fields.Keys
      && forall k :: k in m.fields ==> r.fields[k] == LifoMeta(macros, n, m.fields[k])
    decreases n
  {
    if n > 0 {
      LifoDict(macros, n - 1, SubMeta(m, macros[n - 1].name, macros[n - 1].value));
    }
  }

  lemma {:induction false} TreeExpansion(macros: seq<Macro>, m: Meta)
    requires !Leaks(macros, |macros|)
    ensures LifoMeta(macros, |macros|, m) == ExpandMeta(macros, m)
    decreases m
  {
    var n := |macros|;
    match m
    case Leaf(v) =>
      LifoLeaf(macros, n, v);
      LeafExpansion(macros, n, v);
    case List(items) =>
      LifoList(macros, n, m);
      forall i | 0 <= i < |items|
        ensures LifoMeta(macros, n, items[i]) == ExpandMeta(macros, items[i])
      {
        TreeExpansion(macros, items[i]);
      }
      assert LifoMeta(macros, n, m).items == ExpandMeta(macros, m).items;
    case Dict(fields) =>
      LifoDict(macros, n, m);
      forall k | k in fields
        ensures LifoMeta(macros, n, fields[k]) == ExpandMeta(macros, fields[k])
      {
        TreeExpansion(macros, fields[k]);
      }
      assert LifoMeta(macros, n, m).fields == ExpandMeta(macros, m).fields;
  }

  lemma {:induction false} SubAbsent(t: Text, name: string, subst: Text)
    requires Ref(name) !in t
    ensures SubText(t, name, subst) == t
  {
    if t != [] {
      SubAbsent(t[1..], name, subst);
    }
  }

  // Entries whose names a text does not mention pass it by.
  lemma {:induction false} PassBy(macros: seq<Macro>, lo: nat, n: nat, t: Text)
    requires lo <= n <= |macros|
    requires forall k :: lo <= k < n ==> Ref(macros[k].name) !in t
    ensures LifoValue(macros, n, Str(t)) == LifoValue(macros, lo, Str(t))
    decreases n
  {
    if lo < n {
      SubAbsent(t, macros[n - 1].name, Show(macros[n - 1].value));
      PassBy(macros, lo, n - 1, t);
    }
  }

  lemma {:induction false} OtherStays(macros: seq<Macro>, n: nat, v: Value)
    requires n <= |macros| && v.Other?
    ensures LifoValue(macros, n, v) == v
    decreases n
  {
    if n > 0 {
      OtherStays(macros, n - 1, v);
    }
  }

  lemma {:induction false} StripFirst(first: string, second: string)
    requires first != second
    ensures SubText([Ref(first), Ref(second)], first, []) == [Ref(second)]
  {
    var t := [Ref(first), Ref(second)];
    assert t[1..] == [Ref(second)];
    SubAbsent([Ref(second)], first, []);
  }

  // One reference to an entry becomes that entry's value, expanded by the entries before it.
  lemma {:induction false} OneReferenceTakesValue(macros: seq<Macro>, n: nat, i: nat)
    requires DistinctNames(macros) && i < n <= |macros|
    ensures LifoValue(macros, n, Str([Ref(macros[i].name)])) == LifoValue(macros, i, macros[i].value)
  {
    PassBy(macros, i + 1, n, [Ref(macros[i].name)]);
  }

  lemma {:induction false} LeakStripsFirst(macros: seq<Macro>, i: nat, j: nat)
    requires DistinctNames(macros) && i < j < |macros| && Show(macros[j].value) == []
    ensures LifoValue(macros, |macros|, Str([Ref(macros[j].name), Ref(macros[i].name)]))
      == LifoValue(macros, j, Str([Ref(macros[i].name)]))
  {
    var t := [Ref(macros[j].name), Ref(macros[i].name)];
    assert macros[i].name != macros[j].name;
    PassBy(macros, j + 1, |macros|, t);
    StripFirst(macros[j].name, macros[i].name);
    assert SubValue(Str(t), macros[j].name, macros[j].value) == Str([Ref(macros[i].name)]);
  }

  // The leak: an interpolated text comes out with the type of the one macro that shows something.
  lemma {:induction false} LeakChangesType(macros: seq<Macro>, i: nat, j: nat)
    requires DistinctNames(macros) && i < j < |macros| && macros[i].value.Other? && Show(macros[j].value) == []
    ensures var v := Str([Ref(macros[j].name), Ref(macros[i].name)]);
      LifoValue(macros, |macros|, v) == macros[i].value && ExpandValue(macros, |macros|, v).Str?
  {
    LeakStripsFirst(macros, i, j);
    OneReferenceTakesValue(macros, j, i);
    OtherStays(macros, i, macros[i].value);
  }

  // Nested metadata comes out as full expansion with types exactly when no entry that is not a string
  // has a later entry that shows as nothing.
  lemma {:induction false} MetadataIsExpansionIff(macros: seq<Macro>)
    requires DistinctNames(macros)
    ensures (forall m: Meta :: LifoMeta(macros, |macros|, m) == ExpandMeta(macros, m)) <==> !Leaks(macros, |macros|)
  {
    if Leaks(macros, |macros|) {
      var i, j :| 0 <= i < j < |macros| && macros[i].value.Other? && Show(macros[j].value) == [];
      LeakChangesType(macros, i, j);
      var v := Str([Ref(macros[j].name), Ref(macros[i].name)]);
      LifoLeaf(macros, |macros|, v);
      assert LifoMeta(macros, |macros|, Leaf(v)) != ExpandMeta(macros, Leaf(v));
    } else {
      forall m: Meta
        ensures LifoMeta(macros, |macros|, m) == ExpandMeta(macros, m)
      {
        TreeExpansion(macros, m);
      }
    }
  }

  // Types apart, what a leaf shows is full expansion always.
  lemma {:induction false} LeafShowsExpansion(macros: seq<Macro>, v: Value)
    ensures Show(LifoValue(macros, |macros|, v)) == ExpandText(macros, |macros|, Show(v))
    ensures Show(LifoValue(macros, |macros|, v)) == Show(ExpandValue(macros, |macros|, v))
  {
    LifoShows(macros, |macros|, v);
    LifoIsExpansion(macros, |macros|, Show(v));
    ExpandShows(macros, |macros|, v);
  }
}

/** Loading the models: merging the macro lists, the pass over every field, the port and the final check. */
module MacroLoading {
  import opened Basics
  import opened MacroText
  import opened MacroMeta

  // ---- merge: MODEL_ID, globals, then the model's own, overriding in place ----

  function Overridden(list: seq<Macro>, e: Macro): seq<Macro> {
    var i := First(list, e.name);
    if i < |list| then list[i := e] else list + [e]
  }

  // The first entry with the name, or the length.
  function First(list: seq<Macro>, name: string): (i: nat)
    ensures i <= |list|
    ensures i < |list| ==> list[i].name == name
    ensures forall k :: 0 <= k < i ==> list[k].name != name
  {
    if list == [] || list[0].name == name then 0 else First(list[1..], name) + 1
  }

  function Base(id: Text, globals: seq<Macro>): seq<Macro> {
    [Macro("MODEL_ID", Str(id))] + globals
  }

  function Merged(id: Text, globals: seq<Macro>, locals: seq<Macro>): seq<Macro> {
    if locals == [] then Base(id, globals)
    else Overridden(Merged(id, globals, locals[..|locals| - 1]), locals[|locals| - 1])
  }

  function Entry(list: seq<Macro>, name: string): Option<Macro> {
    var i := Lookup(list, |list|, name);
    if i < 0 then None else Some(list[i])
  }

  lemma {:induction false} LookupIs(list: seq<Macro>, i: nat)
    requires DistinctNames(list) && i < |list|
    ensures Entry(list, list[i].name) == Some(list[i])
  {
  }

  lemma {:induction false} OverriddenEntry(list: seq<Macro>, e: Macro, name: string)
    requires DistinctNames(list)
    ensures DistinctNames(Overridden(list, e)) && |Overridden(list, e)| >= |list|
    ensures forall k :: 0 <= k < |list| ==> Overridden(list, e)[k].name == list[k].name
    ensures Entry(Overridden(list, e), name) == if name == e.name then Some(e) else Entry(list, name)
  {
    var r, i := Overridden(list, e), First(list, e.name);
    LookupIs(r, i);
    if name != e.name {
      var j := Lookup(list, |list|, name);
      if j >= 0 {
        assert r[j] == list[j];
        LookupIs(r, j);
      }
    }
  }

  lemma {:induction false} EntryAppend(list: seq<Macro>, e: Macro, name: string)
    ensures Entry(list + [e], name) == if name == e.name then Some(e) else Entry(list, name)
  {
    LookupPrefix(list, [e], |list|, name);
  }

  lemma {:induction false} LookupPrefix(list: seq<Macro>, more: seq<Macro>, n: nat, name: string)
    requires n <= |list|
    ensures Lookup(list + more, n, name) == Lookup(list, n, name)
    decreases n
  {
    if n > 0 {
      LookupPrefix(list, more, n - 1, name);
    }
  }

  lemma {:induction false} BaseEntry(id: Text, globals: seq<Macro>, n: nat, name: string)
    requires n <= |globals| && forall k :: 0 <= k < |globals| ==> globals[k].name != "MODEL_ID"
    ensures var i := Lookup(globals, n, name);
      Lookup(Base(id, globals), n + 1, name) == if name == "MODEL_ID" then 0 else if i < 0 then -1 else i + 1
  {
    if n > 0 {
      BaseEntry(id, globals, n - 1, name);
      assert Base(id, globals)[n] == globals[n - 1];
    } else {
      assert Lookup(Base(id, globals), 0, name) == -1;
    }
  }

  lemma {:induction false} BaseResolves(id: Text, globals: seq<Macro>, name: string)
    requires DistinctNames(globals) && forall k :: 0 <= k < |globals| ==> globals[k].name != "MODEL_ID"
    ensures Entry(Base(id, globals), name)
            == if name == "MODEL_ID" then Some(Macro("MODEL_ID", Str(id))) else Entry(globals, name)
  {
    BaseEntry(id, globals, |globals|, name);
  }

  lemma {:induction false} BaseOrder(id: Text, globals: seq<Macro>)
    requires DistinctNames(globals) && forall k :: 0 <= k < |globals| ==> globals[k].name != "MODEL_ID"
    ensures DistinctNames(Base(id, globals)) && Base(id, globals)[0].name == "MODEL_ID"
    ensures forall k :: 0 <= k < |globals| ==> Base(id, globals)[k + 1] == globals[k]
  {
  }

  lemma {:induction false} MergedOrder(id: Text, globals: seq<Macro>, locals: seq<Macro>)
    requires DistinctNames(globals) && forall k :: 0 <= k < |globals| ==> globals[k].name != "MODEL_ID"
    ensures var merged := Merged(id, globals, locals);
      && DistinctNames(merged) && |merged| >= |globals| + 1
      && merged[0].name == "MODEL_ID" && (forall k :: 0 <= k < |globals| ==> merged[k + 1].name == globals[k].name)
    decreases |locals|
  {
    if locals == [] {
      BaseOrder(id, globals);
    } else {
      var init, e := locals[..|locals| - 1], locals[|locals| - 1];
      MergedOrder(id, globals, init);
      OverriddenEntry(Merged(id, globals, init), e, "");
    }
  }

  // One more entry of the model's own: what a name then stands for.
  lemma {:induction false} EntryOverridden(list: seq<Macro>, e: Macro, name: string)
    requires DistinctNames(list)
    ensures Entry(Overridden(list, e), name) == if name == e.name then Some(e) else Entry(list, name)
  {
    OverriddenEntry(list, e, name);
  }

  lemma {:induction false} MergedDistinct(id: Text, globals: seq<Macro>, locals: seq<Macro>)
    requires DistinctNames(globals) && forall k :: 0 <= k < |globals| ==> globals[k].name != "MODEL_ID"
    ensures DistinctNames(Merged(id, globals, locals))
  {
    MergedOrder(id, globals, locals);
  }

  lemma {:induction false} MergedEntry(id: Text, globals: seq<Macro>, locals: seq<Macro>, name: string)
    requires DistinctNames(globals) && forall k :: 0 <= k < |globals| ==> globals[k].name != "MODEL_ID"
    ensures Entry(Merged(id, globals, locals), name)
            == if Entry(locals, name).Some? then Entry(locals, name) else Entry(Base(id, globals), name)
    decreases |locals|
  {
    if locals != [] {
      var init, e := locals[..|locals| - 1], locals[|locals| - 1];
      MergedEntry(id, globals, init, name);
      MergedDistinct(id, globals, init);
      EntryOverridden(Merged(id, globals, init), e, name);
      assert locals == init + [e];
      EntryAppend(init, e, name);
    }
  }

  // The merged list declares each name once; MODEL_ID comes first and the global entries follow in their
  // order; a model's macro has precedence over a global one, and the last of its duplicates over the others.
  lemma {:induction false} MergeResolves(id: Text, globals: seq<Macro>, locals: seq<Macro>, name: string)
    requires DistinctNames(globals) && forall k :: 0 <= k < |globals| ==> globals[k].name != "MODEL_ID"
    ensures var merged := Merged(id, globals, locals);
      && DistinctNames(merged) && |merged| >= |globals| + 1
      && merged[0].name == "MODEL_ID" && (forall k :: 0 <= k < |globals| ==> merged[k + 1].name == globals[k].name)
      && Entry(merged, name)
         == (if Entry(locals, name).Some? then Entry(locals, name)
             else if name == "MODEL_ID" then Some(Macro("MODEL_ID", Str(id))) else Entry(globals, name))
  {
    MergedOrder(id, globals, locals);
    MergedEntry(id, globals, locals, name);
    BaseResolves(id, globals, name);
  }

  method Merge(id: Text, globals: seq<Macro>, locals: seq<Macro>) returns (merged: seq<Macro>)
    ensures merged == Merged(id, globals, locals)
  {
    merged := [Macro("MODEL_ID", Str(id))] + globals;
    for n := 0 to |locals|
      invariant merged == Merged(id, globals, locals[..n])
    {
      assert locals[..n + 1][..n] == locals[..n];
      var entry, found, i := locals[n], false, 0;
      ghost var was := merged;
      while i < |merged| && !found
        invariant i <= |was|
        invariant forall k :: 0 <= k < i && !found ==> was[k].name != entry.name
        invariant found ==> i < |was| && i == First(was, entry.name) && merged == was[i := entry]
        invariant !found ==> merged == was
        decreases |was| - i, !found
      {
        if merged[i].name == entry.name {
          merged := merged[i := entry];
          found := true;
        } else {
          i := i + 1;
        }
      }
      if !found {
        merged := merged + [entry];
      }
    }
    assert locals[..|locals|] == locals;
  }

  // ---- one model ----

  datatype Fields = Fields(
    cmd: Text, cmdStop: Text, proxy: Text, checkEndpoint: Text, stripParams: Text, metadata: Meta)

  datatype LoadError = InvalidMacro | PortOnlyInProxy | Unresolved

  const PORT := "PORT"
  const PID := "PID"

  function Decimal(n: nat): string {
    if n < 10 then ["0123456789"[n]] else Decimal(n / 10) + ["0123456789"[n % 10]]
  }

  function WithPort(port: nat, macros: seq<Macro>): seq<Macro> {
    [Macro(PORT, Other("int", Decimal(port)))] + macros
  }

  // Every field expanded with a macro list.
  ghost function Expanded(f: Fields, macros: seq<Macro>): Fields {
    var n := |macros|;
    Fields(ExpandText(macros, n, f.cmd), ExpandText(macros, n, f.cmdStop), ExpandText(macros, n, f.proxy),
           ExpandText(macros, n, f.checkEndpoint), ExpandText(macros, n, f.stripParams),
           LifoMeta(macros, n, f.metadata))
  }

  predicate NoRefs(t: Text) {
    forall k :: 0 <= k < |t| ==> !t[k].Ref?
  }

  // No reference of either kind is left in a leaf.
  predicate Clean(m: Meta) {
    match m
    case Leaf(v) => v.Str? ==> forall k :: 0 <= k < |v.text| ==> v.text[k].Lit?
    case List(items) => forall i :: 0 <= i < |items| ==> Clean(items[i])
    case Dict(fields) => forall k :: k in fields ==> Clean(fields[k])
  }

  predicate Mentions(m: Meta, name: string) {
    match m
    case Leaf(v) => v.Str? && Ref(name) in v.text
    case List(items) => exists i :: 0 <= i < |items| && Mentions(items[i], name)
    case Dict(fields) => exists k :: k in fields && Mentions(fields[k], name)
  }

  // The final check: no reference left, but ${PID} in cmdStop, which is replaced when the model stops.
  predicate Resolved(f: Fields) {
    && NoRefs(f.cmd) && NoRefs(f.proxy) && NoRefs(f.checkEndpoint) && NoRefs(f.stripParams)
    && (forall k :: 0 <= k < |f.cmdStop| && f.cmdStop[k].Ref? ==> f.cmdStop[k].name == PID)
    && Clean(f.metadata)
  }

  predicate UsesPort(f: Fields) {
    Ref(PORT) in f.cmd
  }

  // A port is there for cmd, and beside it for cmdStop, proxy and metadata, but for no other field.
  predicate PortAllowed(f: Fields) {
    && Ref(PORT) !in f.checkEndpoint && Ref(PORT) !in f.stripParams
    && (Ref(PORT) in f.proxy || Ref(PORT) in f.cmdStop || Mentions(f.metadata, PORT) ==> UsesPort(f))
  }

  lemma {:induction false} PortLast(port: nat, macros: seq<Macro>, n: nat, t: Text)
    requires n <= |macros|
    ensures LifoText(WithPort(port, macros), n + 1, t) == SubText(LifoText(macros, n, t), PORT, Chars(Decimal(port)))
    decreases n
  {
    var full := WithPort(port, macros);
    if n == 0 {
      assert full[0] == Macro(PORT, Other("int", Decimal(port)));
      assert LifoText(full, 1, t) == LifoText(full, 0, SubText(t, PORT, Chars(Decimal(port))));
    } else {
      assert full[n] == macros[n - 1];
      PortLast(port, macros, n - 1, SubText(t, macros[n - 1].name, Show(macros[n - 1].value)));
    }
  }

  lemma {:induction false} ExpandPortLast(port: nat, macros: seq<Macro>, t: Text)
    ensures ExpandText(WithPort(port, macros), |macros| + 1, t)
      == SubText(ExpandText(macros, |macros|, t), PORT, Chars(Decimal(port)))
  {
    PortLast(port, macros, |macros|, t);
    LifoIsExpansion(macros, |macros|, t);
    LifoIsExpansion(WithPort(port, macros), |macros| + 1, t);
  }

  lemma {:induction false} MetaPortLast(port: nat, macros: seq<Macro>, n: nat, m: Meta)
    requires n <= |macros|
    ensures LifoMeta(WithPort(port, macros), n + 1, m)
            == SubMeta(LifoMeta(macros, n, m), PORT, Other("int", Decimal(port)))
    decreases n
  {
    var full := WithPort(port, macros);
    if n == 0 {
      assert full[0] == Macro(PORT, Other("int", Decimal(port)));
      assert LifoMeta(full, 1, m) == LifoMeta(full, 0, SubMeta(m, PORT, Other("int", Decimal(port))));
    } else {
      assert full[n] == macros[n - 1];
      MetaPortLast(port, macros, n - 1, SubMeta(m, macros[n - 1].name, macros[n - 1].value));
    }
  }

  lemma {:induction false} SubMetaAbsent(m: Meta, name: string, subst: Value)
    requires !Mentions(m, name)
    ensures SubMeta(m, name, subst) == m
  {
    match m
    case Leaf(v) =>
      if v.Str? {
        SubAbsent(v.text, name, Show(subst));
      }
    case List(items) =>
      forall i | 0 <= i < |items|
        ensures SubMeta(items[i], name, subst) == items[i]
      {
        SubMetaAbsent(items[i], name, subst);
      }
      assert SubMeta(m, name, subst).items == items;
    case Dict(fields) =>
      forall k | k in fields
        ensures SubMeta(fields[k], name, subst) == fields[k]
      {
        SubMetaAbsent(fields[k], name, subst);
      }
      assert SubMeta(m, name, subst).fields == fields;
  }

  lemma {:induction false} CleanMentionsNothing(m: Meta, name: string)
    requires Clean(m)
    ensures !Mentions(m, name)
  {
    match m
    case Leaf(v) =>
    case List(items) =>
      forall i | 0 <= i < |items|
        ensures !Mentions(items[i], name)
      {
        CleanMentionsNothing(items[i], name);
      }
    case Dict(fields) =>
      forall k | k in fields
        ensures !Mentions(fields[k], name)
      {
        CleanMentionsNothing(fields[k], name);
      }
  }

  // A field of a model that was accepted: the expansion with the port as the first entry of the list, and
  // the one it had already if the port is not used.
  lemma {:induction false} PortChangesNothing(port: nat, macros: seq<Macro>, t: Text)
    requires Ref(PORT) !in ExpandText(macros, |macros|, t)
    ensures ExpandText(WithPort(port, macros), |macros| + 1, t) == ExpandText(macros, |macros|, t)
  {
    ExpandPortLast(port, macros, t);
    SubAbsent(ExpandText(macros, |macros|, t), PORT, Chars(Decimal(port)));
  }

  // The model loads exactly when the port is asked for only where it is allowed and nothing is left over.
  ghost predicate Loads(f: Fields, merged: seq<Macro>, port: nat) {
    PortAllowed(Expanded(f, merged)) && Resolved(Expanded(f, WithPort(port, merged)))
  }

  lemma {:induction false} WithoutPort(f: Fields, merged: seq<Macro>, port: nat)
    requires var e := Expanded(f, merged); !UsesPort(e) && PortAllowed(e)
    ensures Expanded(f, WithPort(port, merged)) == Expanded(f, merged)
  {
    var e := Expanded(f, merged);
    PortChangesNothing(port, merged, f.cmd);
    PortChangesNothing(port, merged, f.cmdStop);
    PortChangesNothing(port, merged, f.proxy);
    PortChangesNothing(port, merged, f.checkEndpoint);
    PortChangesNothing(port, merged, f.stripParams);
    MetaPortLast(port, merged, |merged|, f.metadata);
    SubMetaAbsent(e.metadata, PORT, Other("int", Decimal(port)));
  }

  lemma {:induction false} ResolvedAsksForNoPort(e: Fields)
    requires Resolved(e)
    ensures !UsesPort(e) && PortAllowed(e)
  {
    CleanMentionsNothing(e.metadata, PORT);
  }

  function Ported(e: Fields, port: nat): Fields {
    var shown := Chars(Decimal(port));
    e.(cmd := SubText(e.cmd, PORT, shown), cmdStop := SubText(e.cmdStop, PORT, shown),
       proxy := SubText(e.proxy, PORT, shown),
       metadata := SubMeta(e.metadata, PORT, Other("int", Decimal(port))))
  }

  lemma {:induction false} PortedIsExpanded(f: Fields, merged: seq<Macro>, port: nat)
    requires var e := Expanded(f, merged); Ref(PORT) !in e.checkEndpoint && Ref(PORT) !in e.stripParams
    ensures Ported(Expanded(f, merged), port) == Expanded(f, WithPort(port, merged))
  {
    ExpandPortLast(port, merged, f.cmd);
    ExpandPortLast(port, merged, f.cmdStop);
    ExpandPortLast(port, merged, f.proxy);
    PortChangesNothing(port, merged, f.checkEndpoint);
    PortChangesNothing(port, merged, f.stripParams);
    MetaPortLast(port, merged, |merged|, f.metadata);
  }

  // ---- what the port looks like ----

  predicate IsDigit(c: char) {
    '0' <= c <= '9'
  }

  // The number a string of digits stands for, read from the left.
  function ReadOn(s: string, sofar: nat): nat {
    if s == [] || !IsDigit(s[0]) then sofar else ReadOn(s[1..], sofar * 10 + (s[0] - '0') as nat)
  }

  // s is n in decimal: digits without a leading zero, which read n.
  ghost predicate IsDecimal(s: string, n: nat) {
    && s != [] && (forall i :: 0 <= i < |s| ==> IsDigit(s[i])) && (|s| > 1 ==> s[0] != '0')
    && ReadOn(s, 0) == n
  }

  lemma {:induction false} ReadLast(s: string, c: char, sofar: nat)
    requires IsDigit(c) && forall i :: 0 <= i < |s| ==> IsDigit(s[i])
    ensures ReadOn(s + [c], sofar) == ReadOn(s, sofar) * 10 + (c - '0') as nat
  {
    if s == [] {
      assert s + [c] == [c] && [c][1..] == [];
    } else {
      assert (s + [c])[1..] == s[1..] + [c];
      ReadLast(s[1..], c, sofar * 10 + (s[0] - '0') as nat);
    }
  }

  lemma {:induction false} DigitOf(d: nat)
    requires d < 10
    ensures IsDigit("0123456789"[d]) && ("0123456789"[d] - '0') as nat == d
  {
  }

  lemma {:induction false} DecimalReads(n: nat)
    ensures IsDecimal(Decimal(n), n) && (n > 0 ==> Decimal(n)[0] != '0')
  {
    DigitOf(n % 10);
    if n < 10 {
      assert Decimal(n)[1..] == [];
    } else {
      DecimalReads(n / 10);
      ReadLast(Decimal(n / 10), "0123456789"[n % 10], 0);
    }
  }

  // `after` is `before` with the digits in place of every reference to the port.
  ghost predicate Shows(before: Text, after: Text, digits: string) {
    if before == [] then after == []
    else if before[0] == Ref(PORT)
    then |digits| <= |after| && after[..|digits|] == Chars(digits) && Shows(before[1..], after[|digits|..], digits)
    else after != [] && after[0] == before[0] && Shows(before[1..], after[1..], digits)
  }

  // The same throughout a tree, where a leaf that is just the port becomes a number.
  ghost predicate TreeShows(before: Meta, after: Meta, digits: string) {
    match before
    case Leaf(v) =>
      && after.Leaf?
      && if v.Other? then after == before
         else if v.text == [Ref(PORT)] then after.value == Other("int", digits)
         else after.value.Str? && Shows(v.text, after.value.text, digits)
    case List(items) =>
      && after.List? && |after.items| == |items|
      && forall i :: 0 <= i < |items| ==> TreeShows(items[i], after.items[i], digits)
    case Dict(fields) =>
      && after.Dict? && after.fields.Keys == fields.Keys
      && forall k :: k in fields ==> TreeShows(fields[k], after.fields[k], digits)
  }

  ghost predicate FieldsShow(before: Fields, after: Fields, digits: string) {
    && Shows(before.cmd, after.cmd, digits) && Shows(before.cmdStop, after.cmdStop, digits)
    && Shows(before.proxy, after.proxy, digits) && TreeShows(before.metadata, after.metadata, digits)
    && after.checkEndpoint == before.checkEndpoint && after.stripParams == before.stripParams
  }

  lemma {:induction false} SubShows(t: Text, digits: string)
    ensures Shows(t, SubText(t, PORT, Chars(digits)), digits)
  {
    if t != [] {
      SubShows(t[1..], digits);
      var rest := SubText(t[1..], PORT, Chars(digits));
      if t[0] == Ref(PORT) {
        assert (Chars(digits) + rest)[..|digits|] == Chars(digits) && (Chars(digits) + rest)[|digits|..] == rest;
      } else {
        assert ([t[0]] + rest)[1..] == rest;
      }
    }
  }

  lemma {:induction false} SubTreeShows(m: Meta, digits: string)
    ensures TreeShows(m, SubMeta(m, PORT, Other("int", digits)), digits)
  {
    match m
    case Leaf(v) =>
      if v.Str? {
        SubShows(v.text, digits);
      }
    case List(items) =>
      forall i | 0 <= i < |items|
        ensures TreeShows(items[i], SubMeta(items[i], PORT, Other("int", digits)), digits)
      {
        SubTreeShows(items[i], digits);
      }
    case Dict(fields) =>
      forall k | k in fields
        ensures TreeShows(fields[k], SubMeta(fields[k], PORT, Other("int", digits)), digits)
      {
        SubTreeShows(fields[k], digits);
      }
  }

  ghost predicate ShowsPort(before: Fields, after: Fields, port: nat) {
    exists digits :: IsDecimal(digits, port) && FieldsShow(before, after, digits)
  }

  // In a model that loads, the port stands in decimal wherever its expanded fields refer to it, and nothing
  // else about them changes.
  lemma {:induction false} LoadedShowsPort(f: Fields, merged: seq<Macro>, port: nat)
    requires Loads(f, merged, port)
    ensures ShowsPort(Expanded(f, merged), Expanded(f, WithPort(port, merged)), port)
  {
    DecimalReads(port);
    PortedIsExpanded(f, merged, port);
    PortedShows(Expanded(f, merged), port);
  }

  lemma {:induction false} PortedShows(e: Fields, port: nat)
    ensures FieldsShow(e, Ported(e, port), Decimal(port))
  {
    SubShows(e.cmd, Decimal(port));
    SubShows(e.cmdStop, Decimal(port));
    SubShows(e.proxy, Decimal(port));
    SubTreeShows(e.metadata, Decimal(port));
  }

  // ---- which models load ----

  // Every reference in the text is to the port, if there is one.
  ghost predicate PortOnly(t: Text, hasPort: bool) {
    forall x :: x in t && x.Ref? ==> hasPort && x.name == "PORT"
  }

  // In every leaf: nothing but characters, and references to the port if there is one.
  ghost predicate TreePortOnly(m: Meta, hasPort: bool) {
    match m
    case Leaf(v) => v.Str? ==> forall x :: x in v.text ==> x.Lit? || (hasPort && x == Ref("PORT"))
    case List(items) => forall i :: 0 <= i < |items| ==> TreePortOnly(items[i], hasPort)
    case Dict(fields) => forall k :: k in fields ==> TreePortOnly(fields[k], hasPort)
  }

  // The references an expanded model may have left: the port in cmd, and where cmd has it in cmdStop, proxy
  // and metadata as well; and PID in cmdStop.
  ghost predicate Loadable(e: Fields) {
    var hasPort := Ref("PORT") in e.cmd;
    && PortOnly(e.cmd, true) && PortOnly(e.proxy, hasPort)
    && PortOnly(e.checkEndpoint, false) && PortOnly(e.stripParams, false)
    && (forall x :: x in e.cmdStop && x.Ref? ==> x.name == "PID" || (hasPort && x.name == "PORT"))
    && TreePortOnly(e.metadata, hasPort)
  }

  // The port replaces its own references and brings in nothing but characters.
  lemma {:induction false} SubTokens(t: Text, digits: string, x: Token)
    requires !x.Lit?
    ensures x in SubText(t, PORT, Chars(digits)) <==> x in t && x != Ref(PORT)
  {
    if t != [] {
      SubTokens(t[1..], digits, x);
      assert t == [t[0]] + t[1..];
    }
  }

  lemma {:induction false} NoRefsIff(t: Text, digits: string)
    ensures NoRefs(SubText(t, PORT, Chars(digits))) <==> PortOnly(t, true)
    ensures NoRefs(t) <==> PortOnly(t, false)
  {
    forall x: Token | !x.Lit?
      ensures x in SubText(t, PORT, Chars(digits)) <==> x in t && x != Ref(PORT)
    {
      SubTokens(t, digits, x);
    }
    var after := SubText(t, PORT, Chars(digits));
    assert NoRefs(after) <==> forall x :: x in after ==> !x.Ref?;
    assert NoRefs(t) <==> forall x :: x in t ==> !x.Ref?;
  }

  lemma {:induction false} CleanIff(m: Meta, digits: string)
    ensures Clean(SubMeta(m, PORT, Other("int", digits))) <==> TreePortOnly(m, true)
    ensures Clean(m) <==> TreePortOnly(m, false)
  {
    match m
    case Leaf(v) => if v.Str? { LeafCleanIff(v.text, digits); }
    case List(items) =>
      forall i | 0 <= i < |items|
        ensures Clean(SubMeta(items[i], PORT, Other("int", digits))) <==> TreePortOnly(items[i], true)
        ensures Clean(items[i]) <==> TreePortOnly(items[i], false)
      {
        CleanIff(items[i], digits);
      }
      var after := SubMeta(m, PORT, Other("int", digits)).items;
      assert |after| == |items|;
      assert forall i :: 0 <= i < |items| ==> after[i] == SubMeta(items[i], PORT, Other("int", digits));
    case Dict(fields) =>
      forall k | k in fields
        ensures Clean(SubMeta(fields[k], PORT, Other("int", digits))) <==> TreePortOnly(fields[k], true)
        ensures Clean(fields[k]) <==> TreePortOnly(fields[k], false)
      {
        CleanIff(fields[k], digits);
      }
      var after := SubMeta(m, PORT, Other("int", digits)).fields;
      assert after.Keys == fields.Keys;
      assert forall k :: k in fields ==> after[k] == SubMeta(fields[k], PORT, Other("int", digits));
  }

  lemma {:induction false} LeafCleanIff(t: Text, digits: string)
    ensures Clean(SubMeta(Leaf(Str(t)), PORT, Other("int", digits))) <==> TreePortOnly(Leaf(Str(t)), true)
    ensures Clean(Leaf(Str(t))) <==> TreePortOnly(Leaf(Str(t)), false)
  {
    var after := SubText(t, PORT, Chars(digits));
    forall x: Token | !x.Lit?
      ensures x in after <==> x in t && x != Ref(PORT)
    {
      SubTokens(t, digits, x);
    }
    assert Clean(Leaf(Str(after))) <==> forall x :: x in after ==> x.Lit?;
    assert Clean(Leaf(Str(t))) <==> forall x :: x in t ==> x.Lit?;
  }

  // What cmdStop may keep.
  ghost predicate PidOnly(t: Text) {
    forall x :: x in t && x.Ref? ==> x.name == "PID"
  }

  lemma {:induction false} PidOnlyIff(t: Text, digits: string)
    ensures PidOnly(SubText(t, PORT, Chars(digits)))
      <==> forall x :: x in t && x.Ref? ==> x.name == "PID" || x.name == "PORT"
  {
    forall x: Token | !x.Lit?
      ensures x in SubText(t, PORT, Chars(digits)) <==> x in t && x != Ref(PORT)
    {
      SubTokens(t, digits, x);
    }
  }

  lemma {:induction false} ResolvedIff(e: Fields)
    ensures Resolved(e) <==>
      && PortOnly(e.cmd, false) && PortOnly(e.proxy, false) && PortOnly(e.checkEndpoint, false)
      && PortOnly(e.stripParams, false) && PidOnly(e.cmdStop) && TreePortOnly(e.metadata, false)
  {
    NoRefsIff(e.cmd, "");
    NoRefsIff(e.proxy, "");
    NoRefsIff(e.checkEndpoint, "");
    NoRefsIff(e.stripParams, "");
    CleanIff(e.metadata, "");
    assert PidOnly(e.cmdStop) <==>
      forall k :: 0 <= k < |e.cmdStop| && e.cmdStop[k].Ref? ==> e.cmdStop[k].name == PID;
  }

  // With a port in cmd.
  lemma {:induction false} PortedResolvedIff(e: Fields, port: nat)
    requires Ref(PORT) in e.cmd && Ref(PORT) !in e.checkEndpoint && Ref(PORT) !in e.stripParams
    ensures Resolved(Ported(e, port)) <==> Loadable(e)
  {
    var digits := Decimal(port);
    NoRefsIff(e.cmd, digits);
    NoRefsIff(e.proxy, digits);
    NoRefsIff(e.checkEndpoint, digits);
    NoRefsIff(e.stripParams, digits);
    CleanIff(e.metadata, digits);
    PidOnlyIff(e.cmdStop, digits);
    var after := SubText(e.cmdStop, PORT, Chars(digits));
    assert PidOnly(after) <==> forall k :: 0 <= k < |after| && after[k].Ref? ==> after[k].name == PID;
  }

  // Without one.
  lemma {:induction false} ResolvedIsLoadable(e: Fields)
    requires Ref(PORT) !in e.cmd
    ensures Resolved(e) <==> Loadable(e)
  {
    ResolvedIff(e);
  }

  // Which models load does not depend on the port they are given: only on the references their expanded
  // fields have left.
  lemma {:induction false} LoadsIff(f: Fields, merged: seq<Macro>, port: nat)
    ensures Loads(f, merged, port) <==> Loadable(Expanded(f, merged))
  {
    var e := Expanded(f, merged);
    if Ref(PORT) !in e.checkEndpoint && Ref(PORT) !in e.stripParams {
      if UsesPort(e) {
        PortedIsExpanded(f, merged, port);
        PortedResolvedIff(e, port);
      } else {
        ResolvedIsLoadable(e);
        if PortAllowed(e) {
          WithoutPort(f, merged, port);
        } else if Loadable(e) {
          ResolvedAsksForNoPort(e);
        }
      }
    }
  }

  // The pass over the fields of one model, then its port, then the check for references left over.
  method Prepare(f: Fields, merged: seq<Macro>, port: nat) returns (r: Result<Fields, LoadError>, next: nat)
    ensures r.Ok? <==> Loads(f, merged, port)
    ensures r.Ok? <==> Loadable(Expanded(f, merged))
    ensures r.Ok? ==> r.value == Expanded(f, WithPort(port, merged))
    ensures r.Ok? ==> ShowsPort(Expanded(f, merged), r.value, port)
    ensures r != Err(InvalidMacro)
    ensures r == Err(PortOnlyInProxy) <==> Ref(PORT) in Expanded(f, merged).proxy && !UsesPort(Expanded(f, merged))
    ensures next == if UsesPort(Expanded(f, merged)) then port + 1 else port
  {
    LoadsIff(f, merged, port);
    if Loads(f, merged, port) {
      LoadedShowsPort(f, merged, port);
    }
    var e := Pass(f, merged);
    var cmdHasPort, proxyHasPort := Ref(PORT) in e.cmd, Ref(PORT) in e.proxy;
    next := port;
    if !cmdHasPort && proxyHasPort {
      return Err(PortOnlyInProxy), next;
    }
    ghost var was := e;
    if cmdHasPort {
      e := Ported(e, port);
      next := port + 1;
    }
    if Resolved(e) {
      if cmdHasPort {
        PortedIsExpanded(f, merged, port);
      } else {
        ResolvedAsksForNoPort(e);
        WithoutPort(f, merged, port);
      }
      return Ok(e), next;
    }
    if PortAllowed(was) {
      if cmdHasPort {
        PortedIsExpanded(f, merged, port);
      } else {
        WithoutPort(f, merged, port);
      }
    }
    return Err(Unresolved), next;
  }

  method Pass(f: Fields, merged: seq<Macro>) returns (e: Fields)
    ensures e == Expanded(f, merged)
    ensures !Leaks(merged, |merged|) ==> e.metadata == ExpandMeta(merged, f.metadata)
  {
    e := f;
    var n := |merged|;
    while n > 0
      invariant 0 <= n <= |merged| && LifoFields(merged, n, e) == LifoFields(merged, |merged|, f)
    {
      n := n - 1;
      var m := merged[n];
      var shown := Show(m.value);
      e := Fields(SubText(e.cmd, m.name, shown), SubText(e.cmdStop, m.name, shown), SubText(e.proxy, m.name, shown),
                  SubText(e.checkEndpoint, m.name, shown), SubText(e.stripParams, m.name, shown),
                  SubMeta(e.metadata, m.name, m.value));
    }
    LifoFieldsIsExpanded(f, merged);
    if !Leaks(merged, |merged|) {
      TreeExpansion(merged, f.metadata);
    }
  }

  ghost function LifoFields(macros: seq<Macro>, n: nat, f: Fields): Fields
    requires n <= |macros|
  {
    Fields(LifoText(macros, n, f.cmd), LifoText(macros, n, f.cmdStop), LifoText(macros, n, f.proxy),
           LifoText(macros, n, f.checkEndpoint), LifoText(macros, n, f.stripParams), LifoMeta(macros, n, f.metadata))
  }

  lemma {:induction false} LifoFieldsIsExpanded(f: Fields, macros: seq<Macro>)
    ensures LifoFields(macros, |macros|, f) == Expanded(f, macros)
  {
    LifoIsExpansion(macros, |macros|, f.cmd);
    LifoIsExpansion(macros, |macros|, f.cmdStop);
    LifoIsExpansion(macros, |macros|, f.proxy);
    LifoIsExpansion(macros, |macros|, f.checkEndpoint);
    LifoIsExpansion(macros, |macros|, f.stripParams);
  }

  // ---- every model, in id order ----

  datatype Model = Model(id: Text, macros: seq<Macro>, fields: Fields)

  // Macros may not take a reserved name or mention themselves.
  predicate Acceptable(m: Macro) {
    m.name != PORT && m.name != "MODEL_ID" && (m.value.Str? ==> Ref(m.name) !in m.value.text)
  }

  predicate AllAcceptable(macros: seq<Macro>) {
    forall i :: 0 <= i < |macros| ==> Acceptable(macros[i])
  }

  // A macro that takes a reserved name or mentions itself.
  ghost predicate Forbidden(m: Macro) {
    m.name == "PORT" || m.name == "MODEL_ID" || (m.value.Str? && Ref(m.name) in m.value.text)
  }

  ghost predicate AsksForPort(m: Model, globals: seq<Macro>) {
    UsesPort(Expanded(m.fields, Merged(m.id, globals, m.macros)))
  }

  // What becomes of a model that sees the given port.
  ghost function Outcome(m: Model, globals: seq<Macro>, port: nat): Option<Fields> {
    var merged := Merged(m.id, globals, m.macros);
    if AllAcceptable(m.macros) && Loads(m.fields, merged, port)
    then Some(Expanded(m.fields, WithPort(port, merged)))
    else None
  }

  // The model's fields with everything expanded but the port.
  ghost function Unported(m: Model, globals: seq<Macro>): Fields {
    Expanded(m.fields, Merged(m.id, globals, m.macros))
  }

  ghost predicate NoneForbidden(macros: seq<Macro>) {
    forall i :: 0 <= i < |macros| ==> !Forbidden(macros[i])
  }

  lemma {:induction false} OutcomeIff(m: Model, globals: seq<Macro>, port: nat)
    ensures Outcome(m, globals, port).Some? <==> NoneForbidden(m.macros) && Loadable(Unported(m, globals))
    ensures Outcome(m, globals, port).Some? ==> ShowsPort(Unported(m, globals), Outcome(m, globals, port).value, port)
  {
    LoadsIff(m.fields, Merged(m.id, globals, m.macros), port);
    if Outcome(m, globals, port).Some? {
      LoadedShowsPort(m.fields, Merged(m.id, globals, m.macros), port);
    }
  }

  method LoadModel(m: Model, globals: seq<Macro>, port: nat) returns (r: Result<Fields, LoadError>, next: nat)
    ensures Outcome(m, globals, port) == if r.Ok? then Some(r.value) else None
    ensures r.Ok? ==> next == port + if AsksForPort(m, globals) then 1 else 0
    ensures r == Err(InvalidMacro) <==> !NoneForbidden(m.macros)
  {
    if !AllAcceptable(m.macros) {
      return Err(InvalidMacro), port;
    }
    var merged := Merge(m.id, globals, m.macros);
    r, next := Prepare(m.fields, merged, port);
  }

  // Model by model: the port it sees, one further after each model that asks for one, and what becomes
  // of it with that port.
  datatype Plan = Plan(ports: seq<nat>, outcomes: seq<Option<Fields>>)

  ghost predicate IsPlan(models: seq<Model>, globals: seq<Macro>, start: nat, plan: Plan) {
    && |plan.outcomes| == |models| && |plan.ports| == |models| + 1 && plan.ports[0] == start
    && (forall k {:trigger Outcome(models[k], globals, plan.ports[k])} ::
          0 <= k < |models| ==> plan.outcomes[k] == Outcome(models[k], globals, plan.ports[k]))
    && (forall k {:trigger AsksForPort(models[k], globals)} ::
          0 <= k < |models| ==> plan.ports[k + 1] == plan.ports[k] + if AsksForPort(models[k], globals) then 1 else 0)
  }

  function Ports(asks: seq<bool>, start: nat): (ports: seq<nat>)
    ensures |ports| == |asks| + 1 && ports[0] == start
    ensures forall k :: 0 <= k < |asks| ==> ports[k + 1] == ports[k] + if asks[k] then 1 else 0
  {
    if asks == [] then [start] else
      var n := |asks| - 1;
      var ports := Ports(asks[..n], start);
      ports + [ports[n] + if asks[n] then 1 else 0]
  }

  // Every configuration has a plan.
  ghost function PlanOf(models: seq<Model>, globals: seq<Macro>, start: nat): (plan: Plan)
    ensures IsPlan(models, globals, start, plan)
  {
    var asks := seq(|models|, k requires 0 <= k < |models| => AsksForPort(models[k], globals));
    var ports := Ports(asks, start);
    Plan(ports, seq(|models|, k requires 0 <= k < |models| => Outcome(models[k], globals, ports[k])))
  }

  // Planned outcomes: which models load, and that the port they show is the planned one.
  lemma {:induction false} PlannedIff(models: seq<Model>, globals: seq<Macro>, start: nat, plan: Plan, k: nat)
    requires IsPlan(models, globals, start, plan) && k < |models|
    ensures plan.outcomes[k].Some? <==> NoneForbidden(models[k].macros) && Loadable(Unported(models[k], globals))
    ensures plan.outcomes[k].Some? ==>
              ShowsPort(Unported(models[k], globals), plan.outcomes[k].value, plan.ports[k])
  {
    OutcomeIff(models[k], globals, plan.ports[k]);
    PlannedOutcome(models, globals, start, plan, k);
  }

  lemma {:induction false} PlannedOutcome(models: seq<Model>, globals: seq<Macro>, start: nat, plan: Plan, k: nat)
    requires IsPlan(models, globals, start, plan) && k < |models|
    ensures plan.outcomes[k] == Outcome(models[k], globals, plan.ports[k])
  {
  }

  method LoadNth(models: seq<Model>, globals: seq<Macro>, k: nat, port: nat, ghost start: nat, ghost plan: Plan)
    returns (r: Result<Fields, LoadError>, next: nat)
    requires IsPlan(models, globals, start, plan) && k < |models| && port == plan.ports[k]
    ensures plan.outcomes[k] == if r.Ok? then Some(r.value) else None
    ensures r.Ok? ==> next == plan.ports[k + 1]
  {
    r, next := LoadModel(models[k], globals, port);
  }

  // The load succeeds exactly when no macro is forbidden and every model's expanded fields may be left as they
  // are but for the port.  It yields each model's own outcome, which shows the port planned for it.
  method LoadModels(models: seq<Model>, globals: seq<Macro>, start: nat)
    returns (r: Result<seq<Fields>, LoadError>)
    ensures var plan := PlanOf(models, globals, start);
      && (r.Ok? <==> AllAcceptable(globals) && forall k :: 0 <= k < |models| ==> plan.outcomes[k].Some?)
      && (r.Ok? ==> |r.value| == |models|)
      && (r.Ok? ==> forall k :: 0 <= k < |models| ==> plan.outcomes[k] == Some(r.value[k]))
      && (r.Ok? ==> forall k :: 0 <= k < |models| ==>
                      ShowsPort(Unported(models[k], globals), r.value[k], plan.ports[k]))
    ensures r.Ok? <==> NoneForbidden(globals) && forall k :: 0 <= k < |models| ==>
                         NoneForbidden(models[k].macros) && Loadable(Unported(models[k], globals))
  {
    ghost var plan := PlanOf(models, globals, start);
    forall k | 0 <= k < |models|
      ensures plan.outcomes[k].Some? <==> NoneForbidden(models[k].macros) && Loadable(Unported(models[k], globals))
      ensures plan.outcomes[k].Some? ==>
                ShowsPort(Unported(models[k], globals), plan.outcomes[k].value, plan.ports[k])
    {
      PlannedIff(models, globals, start, plan, k);
    }
    if !AllAcceptable(globals) {
      return Err(InvalidMacro);
    }
    r := LoadInOrder(models, globals, start, plan);
  }

  method LoadInOrder(models: seq<Model>, globals: seq<Macro>, start: nat, ghost plan: Plan)
    returns (r: Result<seq<Fields>, LoadError>)
    requires IsPlan(models, globals, start, plan)
    ensures r.Ok? <==> forall k :: 0 <= k < |models| ==> plan.outcomes[k].Some?
    ensures r.Ok? ==> |r.value| == |models|
    ensures r.Ok? ==> forall k :: 0 <= k < |models| ==> plan.outcomes[k] == Some(r.value[k])
  {
    var loaded: seq<Fields>, nextPort := [], start;
    for k := 0 to |models|
      invariant |loaded| == k && nextPort == plan.ports[k]
      invariant forall i :: 0 <= i < k ==> plan.outcomes[i] == Some(loaded[i])
    {
      var one, next := LoadNth(models, globals, k, nextPort, start, plan);
      if one.Err? {
        return Err(one.error);
      }
      loaded := loaded + [one.value];
      nextPort := next;
    }
    return Ok(loaded);
  }

  // No two models that ask for a port are given the same one.
  lemma {:induction false} PortsAreDistinct(models: seq<Model>, globals: seq<Macro>, start: nat, plan: Plan,
      j: nat, k: nat)
    requires IsPlan(models, globals, start, plan) && j < k <= |models| && AsksForPort(models[j], globals)
    ensures start <= plan.ports[j] < plan.ports[k]
  {
    PortStep(models, globals, start, plan, j);
    PortsRise(models, globals, start, plan, 0, j);
    PortsRise(models, globals, start, plan, j + 1, k);
  }

  // And no two such models show the same text for theirs.
  lemma {:induction false} PortTextsDiffer(models: seq<Model>, globals: seq<Macro>, start: nat, plan: Plan,
      j: nat, k: nat, s: string, t: string)
    requires IsPlan(models, globals, start, plan) && j < k <= |models| && AsksForPort(models[j], globals)
    requires IsDecimal(s, plan.ports[j]) && IsDecimal(t, plan.ports[k])
    ensures s != t
  {
    PortsAreDistinct(models, globals, start, plan, j, k);
  }

  lemma {:induction false} PortStep(models: seq<Model>, globals: seq<Macro>, start: nat, plan: Plan, k: nat)
    requires IsPlan(models, globals, start, plan) && k < |models|
    ensures plan.ports[k + 1] == plan.ports[k] + if AsksForPort(models[k], globals) then 1 else 0
  {
  }

  lemma {:induction false} PortsRise(models: seq<Model>, globals: seq<Macro>, start: nat, plan: Plan, j: nat, k: nat)
    requires IsPlan(models, globals, start, plan) && j <= k <= |models|
    ensures plan.ports[j] <= plan.ports[k]
    decreases k
  {
    if j < k {
      PortStep(models, globals, start, plan, k - 1);
      PortsRise(models, globals, start, plan, j, k - 1);
    }
  }
}
