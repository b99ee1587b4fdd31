/** commonnet/hub.py: which tensors of a checkpoint a member needs. */
module Selection {
  import opened Basics
  import opened Numerals
  import opened Route
  import opened Coordinator

  /** The names a decoder's tensors begin with, in the three kinds of checkpoint. */
  const LAYOUTS := ["model.language_model.", "language_model.model.", "model."]

  /** What else a member holds besides layers. */
  datatype Extras = Extras(client: bool, embed: bool, head: bool, tied: bool)

  function LayerPrefix(layout: string, i: nat): string {
    layout + "layers." + Text(10, i) + "."
  }

  function LayerPrefixes(layout: string, start: nat, end: nat): seq<string>
    requires start <= end
  {
    seq(end - start, k requires 0 <= k < end - start => LayerPrefix(layout, start + k))
  }

  function HeadPrefixes(layout: string): seq<string> {
    [layout + "norm.", "lm_head.", "language_model.lm_head."]
  }

  function NeededPrefixes(window: Option<(nat, nat)>, x: Extras, layout: string): seq<string> {
    (if window.Some? && window.value.0 <= window.value.1
     then LayerPrefixes(layout, window.value.0, window.value.1) else [])
    + (if x.client then [layout + "embed_tokens."] + HeadPrefixes(layout) else [])
    + (if x.embed || (x.head && x.tied) then [layout + "embed_tokens."] else [])
    + (if x.head then HeadPrefixes(layout) else [])
  }

  predicate Selected(prefixes: seq<string>, name: string) {
    exists i | 0 <= i < |prefixes| :: prefixes[i] <= name
  }

  function SelectNames(names: seq<string>, prefixes: seq<string>): (r: seq<string>)
    ensures forall n :: n in r <==> n in names && Selected(prefixes, n)
  {
    if names == [] then []
    else SelectNames(names[..|names| - 1], prefixes) + if Selected(prefixes, Last(names)) then [Last(names)] else []
  }

  /** Selected names keep their order, and every occurrence counts. */
  lemma {:induction false} SelectNamesInOrder(a: seq<string>, b: seq<string>, prefixes: seq<string>)
    ensures SelectNames(a + b, prefixes) == SelectNames(a, prefixes) + SelectNames(b, prefixes)
    ensures |b| == 1 ==> SelectNames(b, prefixes) == if Selected(prefixes, b[0]) then b else []
    decreases |b|
  {
    hide Selected, SelectNames;
    if b == [] {
      assert a + b == a;
      SelectNothing(prefixes);
      assert SelectNames(a, prefixes) + [] == SelectNames(a, prefixes);
    } else {
      var front, last := b[..|b| - 1], Last(b);
      SelectNamesInOrder(a, front, prefixes);
      assert a + b == (a + front) + [last] && b == front + [last];
      SelectOneMore(a + front, last, prefixes);
      SelectOneMore(front, last, prefixes);
      Assoc(SelectNames(a, prefixes), SelectNames(front, prefixes), if Selected(prefixes, last) then [last] else []);
      if |b| == 1 {
        SelectNothing(prefixes);
        assert front == [] && b == [last];
      }
    }
  }

  lemma SelectNothing(prefixes: seq<string>)
    ensures SelectNames([], prefixes) == []
  {
  }

  lemma SelectOneMore(names: seq<string>, name: string, prefixes: seq<string>)
    ensures SelectNames(names + [name], prefixes)
         == SelectNames(names, prefixes) + if Selected(prefixes, name) then [name] else []
  {
    hide Selected;
    assert (names + [name])[..|names|] == names;
  }

  lemma SelectedAppend(a: seq<string>, b: seq<string>, name: string)
    ensures Selected(a + b, name) <==> Selected(a, name) || Selected(b, name)
  {
    if i :| 0 <= i < |a| && a[i] <= name {
      assert (a + b)[i] == a[i];
    } else if i :| 0 <= i < |b| && b[i] <= name {
      assert (a + b)[|a| + i] == b[i];
    }
  }

  lemma TextHasNoDot(n: nat, i: nat)
    requires i < |Text(10, n)|
    ensures Text(10, n)[i] != '.'
  {
    SymbolIsDigit(Digits(10, n)[i]);
  }

  /** "layers.1." begins no name of layer 10: only a layer's own prefix matches its tensors. */
  lemma OnlyOwnPrefix(layout: string, i: nat, j: nat, rest: string)
    ensures LayerPrefix(layout, i) <= LayerPrefix(layout, j) + rest <==> i == j
  {
    var head := layout + "layers.";
    var a, b, name := Text(10, i), Text(10, j), LayerPrefix(layout, j) + rest;
    if LayerPrefix(layout, i) <= name {
      assert name[|head|..] == b + "." + rest;
      assert a + "." <= name[|head|..] by {
        assert LayerPrefix(layout, i)[|head|..] == a + ".";
      }
      if |a| < |b| {
        assert (b + "." + rest)[|a|] == '.';
        TextHasNoDot(j, |a|);
      } else if |b| < |a| {
        assert (a + ".")[|b|] == (b + "." + rest)[|b|] == '.';
        TextHasNoDot(i, |b|);
      } else {
        assert (b + "." + rest)[..|b|] == b && (a + ".")[..|a|] == a;
        assert a == b;
        TextIsInjective(10, i, j);
      }
    }
  }

  lemma WindowSelects(layout: string, start: nat, end: nat, j: nat, rest: string)
    requires start <= end
    ensures Selected(LayerPrefixes(layout, start, end), LayerPrefix(layout, j) + rest) <==> start <= j < end
  {
    var prefixes, name := LayerPrefixes(layout, start, end), LayerPrefix(layout, j) + rest;
    forall k | 0 <= k < end - start
      ensures prefixes[k] <= name <==> start + k == j
    {
      OnlyOwnPrefix(layout, start + k, j, rest);
    }
    if start <= j < end {
      assert prefixes[j - start] <= name;
    }
  }

  /** Embedding, norm and head are told apart from layers by their names. */
  lemma ExtrasSelectNoLayer(layout: string, j: nat, rest: string)
    requires layout in LAYOUTS
    ensures !Selected([layout + "embed_tokens."], LayerPrefix(layout, j) + rest)
    ensures !Selected(HeadPrefixes(layout), LayerPrefix(layout, j) + rest)
  {
    var name, n := LayerPrefix(layout, j) + rest, |layout|;
    assert name[n] == 'l' && name[n + 1] == 'a';
    assert (layout + "embed_tokens.")[n] == 'e' && (layout + "norm.")[n] == 'n';
    assert name[0] == layout[0] && name[1] == layout[1];
    assert "lm_head."[1] == 'm' && layout[1] != 'm';
    LanguageHead(layout, name);
  }

  lemma LanguageHead(layout: string, name: string)
    requires layout in LAYOUTS && layout + "layers." <= name
    ensures !("language_model.lm_head." <= name)
  {
    if layout == LAYOUTS[1] {
      assert layout[15] == 'm' && name[15] == (layout + "layers.")[15] == 'm' && "language_model.lm_head."[15] == 'l';
    } else {
      assert name[0] == (layout + "layers.")[0] == 'm' && "language_model.lm_head."[0] == 'l';
    }
  }

  /** A member's selection holds a layer's tensor exactly when the layer is in its window, whatever else the
    * member holds. */
  lemma SelectionIsWindow(window: Option<(nat, nat)>, x: Extras, layout: string, j: nat, rest: string)
    requires layout in LAYOUTS
    ensures Selected(NeededPrefixes(window, x, layout), LayerPrefix(layout, j) + rest)
       <==> window.Some? && window.value.0 <= j < window.value.1
  {
    hide LayerPrefix, LayerPrefixes, Selected;
    var name := LayerPrefix(layout, j) + rest;
    var layers := if window.Some? && window.value.0 <= window.value.1
                  then LayerPrefixes(layout, window.value.0, window.value.1) else [];
    var client := if x.client then [layout + "embed_tokens."] + HeadPrefixes(layout) else [];
    var embed := if x.embed || (x.head && x.tied) then [layout + "embed_tokens."] else [];
    var head := if x.head then HeadPrefixes(layout) else [];
    ExtrasSelectNoLayer(layout, j, rest);
    SelectedNone(name);
    SelectedAppend([layout + "embed_tokens."], HeadPrefixes(layout), name);
    if window.Some? && window.value.0 <= window.value.1 {
      WindowSelects(layout, window.value.0, window.value.1, j, rest);
    }
    SelectedAppend(layers, client, name);
    SelectedAppend(layers + client, embed, name);
    SelectedAppend(layers + client + embed, head, name);
  }

  lemma SelectedNone(name: string)
    ensures !Selected([], name)
  {
  }

  /** Over a route that tiles the model, every tensor of every layer is downloaded by exactly one member. */
  lemma RouteSelectsOnce(eps: seq<Endpoint>, n: nat, x: Extras, layout: string, j: nat, rest: string) returns (i: nat)
    requires Tiles(eps, n) && j < n && layout in LAYOUTS
    ensures i < |eps|
    ensures forall k | 0 <= k < |eps| ::
              && 0 <= eps[k].start <= eps[k].end
              && (k == i <==> Selected(NeededPrefixes(Some((eps[k].start, eps[k].end)), x, layout),
                                       LayerPrefix(layout, j) + rest))
  {
    i := EveryLayerOnce(eps, n, j);
    forall k | 0 <= k < |eps|
      ensures 0 <= eps[k].start <= eps[k].end
      ensures Selected(NeededPrefixes(Some((eps[k].start, eps[k].end)), x, layout), LayerPrefix(layout, j) + rest) <==>
                k == i
    {
      TilesBounds(eps, n, k);
      SelectionIsWindow(Some((eps[k].start, eps[k].end)), x, layout, j, rest);
    }
  }
}
