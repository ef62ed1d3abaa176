/**
 * Gating in final_viewer_main.py: one threshold per marker channel (all
 * starting at 0.0), a marker is expressed in a cell when its value is
 * strictly above the channel's threshold, and seven conjunctive rules over
 * the expressed flags give each cell its type ('other' when no rule
 * matches, 'assigned_twice' when several do).
 */
module Gating {
  import opened Wrappers

  /** The hard-coded marker channels. */
  datatype Channel = CD163 | CD3 | CD4 | CD8 | DAPI | HLADR | PDL1 | PanCK | XCR1

  /** `channel_names`, in the order the source lists them. */
  const ChannelNames: seq<Channel> := [CD163, CD3, CD4, CD8, DAPI, HLADR, PDL1, PanCK, XCR1]

  /** The cell types, in the order update_cell_types assigns them. */
  datatype CellType =
    | DoubleNegTCell | Cd4TCell | Cd8TCell | Mac | Cdc1 | OtherMyeloidAndBCells | DoublePosTCell

  const CellTypes: seq<CellType> :=
    [DoubleNegTCell, Cd4TCell, Cd8TCell, Mac, Cdc1, OtherMyeloidAndBCells, DoublePosTCell]

  /** A value of the `cell_type` column. */
  datatype Label = Other | Typed(cellType: CellType) | AssignedTwice

  /** One row of the cell table: marker values, `<marker>_expressed` flags and the optional `cell_type`. */
  datatype CellRow = CellRow(values: map<Channel, real>, expressed: map<Channel, bool>, kind: Option<Label>)

  /** One line of `<image>_thresholds.txt` (its time stamp left out). */
  datatype GateLine = GateLine(channel: Channel, threshold: real)

  /** m has an entry for every channel. */
  ghost predicate Complete<V>(m: map<Channel, V>)
  {
    forall c: Channel :: c in m
  }

  lemma ChannelNamesComplete()
    ensures forall c: Channel :: c in ChannelNames
  {
    forall c: Channel
      ensures c in ChannelNames
    {
      match c
      case CD163 => assert ChannelNames[0] == c;
      case CD3 => assert ChannelNames[1] == c;
      case CD4 => assert ChannelNames[2] == c;
      case CD8 => assert ChannelNames[3] == c;
      case DAPI => assert ChannelNames[4] == c;
      case HLADR => assert ChannelNames[5] == c;
      case PDL1 => assert ChannelNames[6] == c;
      case PanCK => assert ChannelNames[7] == c;
      case XCR1 => assert ChannelNames[8] == c;
    }
  }

  // ---------------------------------------------------------------------
  // Expressed flags

  /** `data[c] > threshold_dict[c]`: the flag stored in `<c>_expressed`. */
  function Expressed(values: map<Channel, real>, thresholds: map<Channel, real>, c: Channel): bool
    requires c in values && c in thresholds
  {
    values[c] > thresholds[c]
  }

  /** The flags of every channel in cs, recomputed from values and thresholds. */
  function GateOn(values: map<Channel, real>, thresholds: map<Channel, real>, cs: seq<Channel>): map<Channel, bool>
    requires Complete(values) && Complete(thresholds)
  {
    map c | c in cs :: Expressed(values, thresholds, c)
  }

  /** The flags of all channels. */
  function Gate(values: map<Channel, real>, thresholds: map<Channel, real>): map<Channel, bool>
    requires Complete(values) && Complete(thresholds)
  {
    GateOn(values, thresholds, ChannelNames)
  }

  /** Every channel has a flag, set exactly when the value is strictly above the threshold. */
  lemma GateAt(values: map<Channel, real>, thresholds: map<Channel, real>)
    requires Complete(values) && Complete(thresholds)
    ensures Complete(Gate(values, thresholds))
    ensures forall c :: Gate(values, thresholds)[c] <==> values[c] > thresholds[c]
  {
    ChannelNamesComplete();
  }

  /** Recomputing one more channel's flag extends the recomputed set by that channel. */
  lemma GateOnSnoc(e0: map<Channel, bool>, values: map<Channel, real>, thresholds: map<Channel, real>,
                   cs: seq<Channel>, c: Channel)
    requires Complete(values) && Complete(thresholds)
    ensures (e0 + GateOn(values, thresholds, cs))[c := values[c] > thresholds[c]] ==
            e0 + GateOn(values, thresholds, cs + [c])
  {
  }

  /** Once all channels are recomputed, the flags read are forgotten. */
  lemma GateOverrides(e0: map<Channel, bool>, values: map<Channel, real>, thresholds: map<Channel, real>)
    requires Complete(values) && Complete(thresholds)
    ensures e0 + Gate(values, thresholds) == Gate(values, thresholds)
  {
    ChannelNamesComplete();
  }

  /** Moving one threshold changes exactly that channel's flag. */
  lemma GateMove(values: map<Channel, real>, thresholds: map<Channel, real>, c: Channel, v: real)
    requires Complete(values) && Complete(thresholds)
    ensures Gate(values, thresholds)[c := values[c] > v] == Gate(values, thresholds[c := v])
  {
    ChannelNamesComplete();
  }

  /** Raising a threshold can only clear flags; lowering it can only set them. */
  lemma GateMonotone(values: map<Channel, real>, t: map<Channel, real>, t': map<Channel, real>, c: Channel)
    requires Complete(values) && Complete(t) && Complete(t')
    requires t[c] <= t'[c]
    ensures c in Gate(values, t) && c in Gate(values, t')
    ensures Gate(values, t')[c] ==> Gate(values, t)[c]
  {
    GateAt(values, t);
    GateAt(values, t');
  }

  // ---------------------------------------------------------------------
  // Cell-type rules

  /** `data['<c>_expressed'] == 1`. */
  predicate On(e: map<Channel, bool>, c: Channel)
  {
    c in e && e[c]
  }

  /** `data['<c>_expressed'] == 0`. */
  predicate Off(e: map<Channel, bool>, c: Channel)
  {
    c in e && !e[c]
  }

  /**
   * The rule of update_cell_types for cell type t. Every rule asks for a
   * nucleus (DAPI) and at least one positive marker besides it.
   */
  predicate Matches(t: CellType, e: map<Channel, bool>)
    ensures Matches(t, e) ==> On(e, DAPI)
    ensures Matches(t, e) ==> exists c :: c != DAPI && On(e, c)
  {
    match t
    case DoubleNegTCell => On(e, DAPI) && On(e, CD3) && Off(e, CD4) && Off(e, CD8) && Off(e, XCR1)
    case Cd4TCell => On(e, DAPI) && On(e, CD4) && On(e, CD3) && Off(e, CD8) && Off(e, XCR1)
    case Cd8TCell => On(e, DAPI) && On(e, CD8) && On(e, CD3) && Off(e, CD4) && Off(e, XCR1)
    case Mac => On(e, DAPI) && On(e, CD163) && On(e, HLADR) && Off(e, XCR1) && Off(e, CD3)
    case Cdc1 => On(e, DAPI) && On(e, XCR1) && On(e, HLADR) && Off(e, CD3) && Off(e, CD163)
    case OtherMyeloidAndBCells => On(e, DAPI) && On(e, HLADR) && Off(e, CD163) && Off(e, CD3) && Off(e, XCR1)
    case DoublePosTCell => On(e, DAPI) && On(e, CD3) && On(e, CD4) && On(e, CD8) && Off(e, XCR1)
  }

  /** The rules of `rules` that the flags match, in order. */
  function Matching(e: map<Channel, bool>, rules: seq<CellType>): (ms: seq<CellType>)
    ensures forall t :: t in ms <==> t in rules && Matches(t, e)
  {
    if rules == [] then []
    else
      var init := rules[..|rules| - 1];
      var t := rules[|rules| - 1];
      assert forall u :: u in rules <==> u in init || u == t;
      Matching(e, init) + (if Matches(t, e) then [t] else [])
  }

  /**
   * The intended cell type: 'other' when no rule matches, the rule's type
   * when exactly one does, 'assigned_twice' when two or more do.
   */
  function Classify(e: map<Channel, bool>): Label
  {
    var ms := Matching(e, CellTypes);
    if |ms| == 0 then Other else if |ms| == 1 then Typed(ms[0]) else AssignedTwice
  }

  /**
   * The label after `data.loc[ct_idx[:, i], 'cell_type'] = ct` for the rules
   * in order, starting from 'other': the last matching rule wins.
   */
  function LastMatch(e: map<Channel, bool>, rules: seq<CellType>): (l: Label)
    ensures l != AssignedTwice
    ensures l.Typed? ==> l.cellType in rules && Matches(l.cellType, e)
    ensures l == Other <==> forall t :: t in rules ==> !Matches(t, e)
  {
    if rules == [] then Other
    else
      var init, last := rules[..|rules| - 1], rules[|rules| - 1];
      assert forall u :: u in rules <==> u in init || u == last;
      if Matches(last, e) then Typed(last)
      else LastMatch(e, init)
  }

  /** The label update_cell_types leaves: the last match, overridden when more than one rule matches. */
  function Assigned(e: map<Channel, bool>, rules: seq<CellType>): (l: Label)
    ensures l == Other <==> forall t :: t in rules ==> !Matches(t, e)
    ensures l.Typed? ==> l.cellType in rules && Matches(l.cellType, e) && |Matching(e, rules)| == 1
    ensures l == AssignedTwice <==> |Matching(e, rules)| > 1
  {
    var ms := Matching(e, rules);
    if |ms| > 1 then assert ms[0] in ms; AssignedTwice else LastMatch(e, rules)
  }

  /** The last-wins assignment leaves 'other' without a match, otherwise the last matching rule. */
  lemma {:induction false} LastMatchIsLast(e: map<Channel, bool>, rules: seq<CellType>)
    ensures var ms := Matching(e, rules);
            LastMatch(e, rules) == if |ms| == 0 then Other else Typed(ms[|ms| - 1])
  {
    if rules != [] {
      var init, last := rules[..|rules| - 1], rules[|rules| - 1];
      LastMatchIsLast(e, init);
      if Matches(last, e) {
        assert Matching(e, rules) == Matching(e, init) + [last];
      } else {
        assert Matching(e, rules) == Matching(e, init);
      }
    }
  }

  /** How often t occurs among the matching rules: as often as in the rules when it matches, never otherwise. */
  lemma {:induction false} MatchingCount(e: map<Channel, bool>, rules: seq<CellType>, t: CellType)
    ensures multiset(Matching(e, rules))[t] == if Matches(t, e) then multiset(rules)[t] else 0
  {
    if rules != [] {
      var init, last := rules[..|rules| - 1], rules[|rules| - 1];
      MatchingCount(e, init, t);
      assert rules == init + [last];
      assert multiset(rules) == multiset(init) + multiset{last};
      assert multiset(Matching(e, rules)) == multiset(Matching(e, init)) + multiset(if Matches(last, e) then [last] else []);
    }
  }

  /** Rules that are a permutation of each other match the same multiset of cell types. */
  lemma MatchingPermutation(e: map<Channel, bool>, order: seq<CellType>, rules: seq<CellType>)
    requires multiset(order) == multiset(rules)
    ensures multiset(Matching(e, order)) == multiset(Matching(e, rules))
  {
    forall t
      ensures multiset(Matching(e, order))[t] == multiset(Matching(e, rules))[t]
    {
      MatchingCount(e, order, t);
      MatchingCount(e, rules, t);
    }
  }

  /**
   * Applying a permutation of the rules in order, last match winning and
   * several matches overriding, gives 'other' without a match, the
   * matching rule's type with one, and 'assigned_twice' with several.
   */
  lemma AssignedPermutation(e: map<Channel, bool>, order: seq<CellType>, rules: seq<CellType>)
    requires multiset(order) == multiset(rules)
    ensures var ms := Matching(e, rules);
            Assigned(e, order) == if |ms| == 0 then Other else if |ms| == 1 then Typed(ms[0]) else AssignedTwice
  {
    var ms, ms' := Matching(e, order), Matching(e, rules);
    MatchingPermutation(e, order, rules);
    assert |ms| == |multiset(ms)| == |ms'|;
    LastMatchIsLast(e, order);
    if |ms| == 1 {
      assert ms[0] in multiset(ms');
      assert ms' == [ms'[0]];
    }
  }

  /**
   * update_cell_types assigns the intended label whatever order the rules
   * are applied in, as long as every rule is applied once.
   */
  lemma AssignedAnyOrder(e: map<Channel, bool>, order: seq<CellType>)
    requires multiset(order) == multiset(CellTypes)
    ensures Assigned(e, order) == Classify(e)
  {
    AssignedPermutation(e, order, CellTypes);
  }

  /** update_cell_types, with the rules in the source's order, assigns the intended label. */
  lemma AssignedIsClassify(e: map<Channel, bool>)
    ensures Assigned(e, CellTypes) == Classify(e)
  {
    AssignedAnyOrder(e, CellTypes);
  }

  /** No two rules can match the same cell. */
  lemma RulesExclusive(e: map<Channel, bool>, t: CellType, u: CellType)
    requires Matches(t, e) && Matches(u, e)
    ensures t == u
  {
  }

  /** Among distinct rules at most one matches. */
  lemma {:induction false} AtMostOneMatch(e: map<Channel, bool>, rules: seq<CellType>)
    requires forall i, j :: 0 <= i < j < |rules| ==> rules[i] != rules[j]
    ensures |Matching(e, rules)| <= 1
  {
    if rules != [] {
      var init, t := rules[..|rules| - 1], rules[|rules| - 1];
      AtMostOneMatch(e, init);
      if |Matching(e, init)| == 1 && Matches(t, e) {
        var u := Matching(e, init)[0];
        assert u in Matching(e, init);
        RulesExclusive(e, t, u);
        assert false;
      }
    }
  }

  /** So no cell is ever labelled 'assigned_twice'. */
  lemma NeverAssignedTwice(e: map<Channel, bool>)
    ensures |Matching(e, CellTypes)| <= 1
    ensures Classify(e) != AssignedTwice
  {
    AtMostOneMatch(e, CellTypes);
  }

  // ---------------------------------------------------------------------
  // The session

  /** The per-cell state after update_cell_types: every row carries its intended label. */
  ghost predicate Labelled(rows: seq<CellRow>)
  {
    forall k :: 0 <= k < |rows| ==> rows[k].kind == Some(Classify(rows[k].expressed))
  }

  /** Row k of `rows` after the flag columns of the channels in cs were recomputed from `base`. */
  ghost predicate GatedRows(rows: seq<CellRow>, base: seq<CellRow>, thresholds: map<Channel, real>, cs: seq<Channel>)
  {
    |rows| == |base| && Complete(thresholds) &&
    forall k :: 0 <= k < |rows| ==>
      Complete(base[k].values) &&
      rows[k] == base[k].(expressed := base[k].expressed + GateOn(base[k].values, thresholds, cs))
  }

  /** `data[c + "_expressed"] = data[c] > t` on every row. */
  function SetColumn(rows: seq<CellRow>, c: Channel, t: real): (r: seq<CellRow>)
    requires forall k :: 0 <= k < |rows| ==> c in rows[k].values
    ensures |r| == |rows|
    ensures forall k :: 0 <= k < |r| ==>
              r[k].values == rows[k].values && r[k].kind == rows[k].kind &&
              r[k].expressed.Keys == rows[k].expressed.Keys + {c} &&
              (r[k].expressed[c] <==> rows[k].values[c] > t) &&
              forall d :: d in rows[k].expressed && d != c ==> r[k].expressed[d] == rows[k].expressed[d]
  {
    seq(|rows|, k requires 0 <= k < |rows| => rows[k].(expressed := rows[k].expressed[c := rows[k].values[c] > t]))
  }

  /** Row k after SetColumn: flag c replaced by value > t, everything else kept. */
  lemma SetColumnAt(rows: seq<CellRow>, c: Channel, t: real, k: nat)
    requires forall k :: 0 <= k < |rows| ==> c in rows[k].values
    requires k < |rows|
    ensures SetColumn(rows, c, t)[k] == rows[k].(expressed := rows[k].expressed[c := rows[k].values[c] > t])
  {
    var r, m := SetColumn(rows, c, t)[k], rows[k].expressed[c := rows[k].values[c] > t];
    assert r.expressed.Keys == m.Keys;
    assert forall d :: d in m ==> r.expressed[d] == m[d];
  }

  /** Moving threshold c to v and recomputing column c keeps every flag consistent with the new thresholds. */
  lemma SliderKeepsGates(before: seq<CellRow>, after: seq<CellRow>, t0: map<Channel, real>, c: Channel, v: real)
    requires |after| == |before| && Complete(t0)
    requires forall k :: 0 <= k < |before| ==>
               Complete(before[k].values) && before[k].expressed == Gate(before[k].values, t0) &&
               after[k].values == before[k].values &&
               after[k].expressed == before[k].expressed[c := before[k].values[c] > v]
    ensures forall k :: 0 <= k < |after| ==> after[k].expressed == Gate(after[k].values, t0[c := v])
  {
    forall k | 0 <= k < |after|
      ensures after[k].expressed == Gate(after[k].values, t0[c := v])
    {
      GateMove(before[k].values, t0, c, v);
    }
  }

  lemma GatedRowsStep(rows: seq<CellRow>, base: seq<CellRow>, thresholds: map<Channel, real>, cs: seq<Channel>, c: Channel)
    requires GatedRows(rows, base, thresholds, cs)
    ensures forall k :: 0 <= k < |rows| ==> c in rows[k].values
    ensures GatedRows(SetColumn(rows, c, thresholds[c]), base, thresholds, cs + [c])
  {
    forall k | 0 <= k < |rows|
      ensures SetColumn(rows, c, thresholds[c])[k] ==
              base[k].(expressed := base[k].expressed + GateOn(base[k].values, thresholds, cs + [c]))
    {
      GateOnSnoc(base[k].expressed, base[k].values, thresholds, cs, c);
    }
  }

  /** Every row of the table with every flag column recomputed from the thresholds. */
  lemma GatedRowsAll(rows: seq<CellRow>, base: seq<CellRow>, thresholds: map<Channel, real>)
    requires GatedRows(rows, base, thresholds, ChannelNames)
    ensures forall k :: 0 <= k < |rows| ==>
              rows[k] == base[k].(expressed := Gate(base[k].values, thresholds))
  {
    forall k | 0 <= k < |rows|
      ensures rows[k] == base[k].(expressed := Gate(base[k].values, thresholds))
    {
      GateOverrides(base[k].expressed, base[k].values, thresholds);
    }
  }

  class GatingSession {
    /** `threshold_dict`. */
    var thresholds: map<Channel, real>
    /** The properties of the points layer: the loaded cell table. */
    var cells: seq<CellRow>

    /** Every channel has a threshold and every cell a value for every channel. */
    ghost predicate Valid()
      reads this
    {
      Complete(thresholds) && forall k :: 0 <= k < |cells| ==> Complete(cells[k].values)
    }

    /** Every flag agrees with its cell's value and its channel's threshold. */
    ghost predicate Consistent()
      reads this
      requires Valid()
    {
      forall k :: 0 <= k < |cells| ==> cells[k].expressed == Gate(cells[k].values, thresholds)
    }

    /** Start-up: every channel threshold is 0.0 and no cell data is loaded. */
    constructor ()
      ensures Valid()
      ensures forall c :: thresholds[c] == 0.0
      ensures cells == []
    {
      ChannelNamesComplete();
      thresholds := map c | c in ChannelNames :: 0.0;
      cells := [];
    }

    /**
     * load_cell_data: the table is read and every channel's flag column is
     * recomputed from the current thresholds, channel by channel; values
     * and an existing `cell_type` column are kept as read.
     */
    method LoadCellData(rows: seq<CellRow>)
      requires Valid()
      requires forall k :: 0 <= k < |rows| ==> Complete(rows[k].values)
      modifies this`cells
      ensures Valid() && Consistent()
      ensures |cells| == |rows|
      ensures forall k :: 0 <= k < |rows| ==> cells[k] == rows[k].(expressed := Gate(rows[k].values, thresholds))
    {
      var data := rows;
      assert GatedRows(data, rows, thresholds, ChannelNames[..0]) by {
        forall k | 0 <= k < |rows|
          ensures rows[k].expressed + GateOn(rows[k].values, thresholds, []) == rows[k].expressed
        {
        }
      }
      for i := 0 to |ChannelNames|
        invariant GatedRows(data, rows, thresholds, ChannelNames[..i])
      {
        var c := ChannelNames[i];
        GatedRowsStep(data, rows, thresholds, ChannelNames[..i], c);
        data := SetColumn(data, c, thresholds[c]);
        assert ChannelNames[..i + 1] == ChannelNames[..i] + [c];
      }
      assert ChannelNames[..|ChannelNames|] == ChannelNames;
      GatedRowsAll(data, rows, thresholds);
      cells := data;
    }

    /**
     * update_cell_types: every cell is first labelled 'other', the rules are
     * applied in order (a later match overwriting an earlier one), and
     * cells matching more than one rule are relabelled 'assigned_twice'.
     */
    method UpdateCellTypes()
      modifies this`cells
      ensures |cells| == |old(cells)|
      ensures forall k :: 0 <= k < |cells| ==>
                cells[k] == old(cells[k]).(kind := Some(Assigned(old(cells[k]).expressed, CellTypes)))
      ensures Labelled(cells)
    {
      var data := cells;
      var labels := seq(|data|, k requires 0 <= k < |data| => Other);
      for i := 0 to |CellTypes|
        invariant |labels| == |data|
        invariant forall k :: 0 <= k < |data| ==> labels[k] == LastMatch(data[k].expressed, CellTypes[..i])
      {
        var ct := CellTypes[i];
        assert CellTypes[..i + 1][..i] == CellTypes[..i];
        labels := seq(|data|, k requires 0 <= k < |data| =>
          if Matches(ct, data[k].expressed) then Typed(ct) else labels[k]);
      }
      assert CellTypes[..|CellTypes|] == CellTypes;
      cells := seq(|data|, k requires 0 <= k < |data| =>
        data[k].(kind := Some(if |Matching(data[k].expressed, CellTypes)| > 1 then AssignedTwice else labels[k])));
      forall k | 0 <= k < |cells|
        ensures cells[k].kind == Some(Classify(cells[k].expressed))
      {
        AssignedIsClassify(cells[k].expressed);
      }
    }

    /**
     * threshold_slider_change: only the selected marker's threshold moves,
     * only its flag column is recomputed, and the cell types are updated.
     */
    method ThresholdSliderChange(channel: Channel, value: real)
      requires Valid()
      modifies this`thresholds, this`cells
      ensures Valid()
      ensures thresholds == old(thresholds)[channel := value]
      ensures |cells| == |old(cells)|
      ensures forall k :: 0 <= k < |cells| ==>
                cells[k].values == old(cells[k]).values &&
                cells[k].expressed == old(cells[k]).expressed[channel := old(cells[k]).values[channel] > value]
      ensures Labelled(cells)
      ensures old(Consistent()) ==> Consistent()
    {
      ghost var before, t0, wasConsistent := cells, thresholds, Consistent();
      thresholds := thresholds[channel := value];
      cells := SetColumn(cells, channel, value);
      assert forall k :: 0 <= k < |cells| ==>
               cells[k].values == before[k].values &&
               cells[k].expressed == before[k].expressed[channel := before[k].values[channel] > value] by {
        forall k | 0 <= k < |cells|
          ensures cells[k] == before[k].(expressed := before[k].expressed[channel := before[k].values[channel] > value])
        {
          SetColumnAt(before, channel, value, k);
        }
      }
      UpdateCellTypes();
      if wasConsistent {
        SliderKeepsGates(before, cells, t0, channel, value);
      }
    }

    /**
     * save: one gate line per channel, in channel order, and the table with
     * every flag column recomputed from the thresholds (the `cell_type`
     * column as it stands). Nothing in the session changes.
     */
    method Save() returns (log: seq<GateLine>, saved: seq<CellRow>)
      requires Valid()
      ensures |log| == |ChannelNames|
      ensures forall i :: 0 <= i < |log| ==> log[i] == GateLine(ChannelNames[i], thresholds[ChannelNames[i]])
      ensures |saved| == |cells|
      ensures forall k :: 0 <= k < |saved| ==> saved[k] == cells[k].(expressed := Gate(cells[k].values, thresholds))
    {
      log := [];
      for i := 0 to |ChannelNames|
        invariant |log| == i
        invariant forall i' :: 0 <= i' < i ==> log[i'] == GateLine(ChannelNames[i'], thresholds[ChannelNames[i']])
      {
        var c := ChannelNames[i];
        log := log + [GateLine(c, thresholds[c])];
      }
      saved := cells;
      assert GatedRows(saved, cells, thresholds, ChannelNames[..0]) by {
        forall k | 0 <= k < |cells|
          ensures cells[k].expressed + GateOn(cells[k].values, thresholds, []) == cells[k].expressed
        {
        }
      }
      for i := 0 to |ChannelNames|
        invariant GatedRows(saved, cells, thresholds, ChannelNames[..i])
      {
        var c := ChannelNames[i];
        GatedRowsStep(saved, cells, thresholds, ChannelNames[..i], c);
        saved := SetColumn(saved, c, thresholds[c]);
        assert ChannelNames[..i + 1] == ChannelNames[..i] + [c];
      }
      assert ChannelNames[..|ChannelNames|] == ChannelNames;
      GatedRowsAll(saved, cells, thresholds);
    }
  }
}
