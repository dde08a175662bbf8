/** No expression function reads outside the token array, with one exception, which is
    stated exactly. */
module CursorSafety {
  import opened Outcomes
  import opened Tokens
  import opened Nodes
  import opened Operators
  import opened ExprParser
  import opened ExprShapes

  /** The last token is the end marker. */
  predicate Terminated(ts: seq<Token>) {
    |ts| > 0 && ts[|ts| - 1].kind == Eof
  }

  /** The outcome stays inside an array of `n` tokens. */
  predicate Inside(r: Result<Parsed>, n: nat) {
    r != OutOfBounds && (r.Ok? ==> r.value.next < n)
  }

  lemma OperatorInBounds(lv: nat, ts: seq<Token>, j: nat)
    requires Terminated(ts) && j < |ts|
    ensures OperatorAt(lv, ts, j).Ok?
    ensures OperatorAt(lv, ts, j).value.Some? ==> j + Width(OperatorAt(lv, ts, j).value.value) < |ts|
  {
    if OperatorAt(lv, ts, j).Ok? && OperatorAt(lv, ts, j).value.Some? {
      var k1 := if ReadsAhead(lv, ts[j].kind) then ts[j + 1].kind else Eof;
      OperatorOfIsSpelled(lv, ts[j].kind, k1);
    }
  }

  lemma {:induction false} LevelInBounds(lv: nat, ts: seq<Token>, i: nat)
    requires lv <= OR && Terminated(ts) && i < |ts| && !LooksBehindStart(ts, i)
    ensures Inside(Level(lv, ts, i), |ts|)
    decreases |ts| - i, lv, 2
  {
    if lv == FACTOR {
      FactorInBounds(ts, i);
    } else if lv == CALL {
      CallInBounds(ts, i);
    } else {
      hide OperatorAt, Width, Factor, Call;
      LevelInBounds(lv - 1, ts, i);
      if lv == NEGATE {
        if ts[i].kind == Minus {
          LevelInBounds(CALL, ts, i + 1);
        }
      } else if lv == NOT {
        if ts[i].kind == Exclam {
          LevelInBounds(COMPARE, ts, i + 1);
        }
      } else {
        BinaryInBounds(lv, ts, i);
      }
    }
  }

  lemma {:induction false} BinaryInBounds(lv: nat, ts: seq<Token>, i: nat)
    requires MULTIPLICATIVE <= lv <= OR && lv != NOT && Terminated(ts) && i < |ts|
    requires Inside(Level(lv - 1, ts, i), |ts|)
    ensures Inside(Binary(lv, ts, i), |ts|)
    decreases |ts| - i, lv, 1
  {
    hide OperatorAt, Width, Level;
    if Level(lv - 1, ts, i).Ok? {
      var j := Level(lv - 1, ts, i).value.next;
      OperatorInBounds(lv, ts, j);
      var found := OperatorAt(lv, ts, j).value;
      if found.Some? {
        LevelInBounds(lv, ts, j + Width(found.value));
      }
    }
  }

  lemma {:induction false} CallInBounds(ts: seq<Token>, i: nat)
    requires Terminated(ts) && i < |ts| && !LooksBehindStart(ts, i)
    ensures Inside(Call(ts, i), |ts|)
    decreases |ts| - i, CALL, 1
  {
    hide Level, List;
    if i + 1 < |ts| && ts[i].kind == Ident && ts[i + 1].kind == LParen {
      ListInBounds(ts, i + 2);
    } else {
      LevelInBounds(FACTOR, ts, i);
    }
  }

  lemma {:induction false} FactorInBounds(ts: seq<Token>, i: nat)
    requires Terminated(ts) && i < |ts| && !LooksBehindStart(ts, i)
    ensures Inside(Factor(ts, i), |ts|)
    decreases |ts| - i, FACTOR, 1
  {
    hide Level, List;
    if ts[i].kind == LCurly || ts[i].kind == LBrack {
      ListInBounds(ts, i + 1);
    } else if ts[i].kind == LParen {
      LevelInBounds(OR, ts, i + 1);
    } else if ts[i].kind == Ident {
      if ts[i + 1].kind == Dot {
        LevelInBounds(FACTOR, ts, i + 2);
      } else if ts[i + 1].kind == LBrack {
        IndexInBounds(ts, i + 1);
      }
    }
  }

  lemma {:induction false} IndexInBounds(ts: seq<Token>, i: nat)
    requires Terminated(ts) && 0 < i < |ts|
    ensures Inside(ArrayIndex(ts, i), |ts|)
    decreases |ts| - i, FACTOR, 0
  {
    hide Level;
    if ts[i].kind == LBrack {
      LevelInBounds(OR, ts, i + 1);
      if Level(OR, ts, i + 1).Ok? {
        var j := Level(OR, ts, i + 1).value.next;
        if ts[j].kind == RBrack {
          IndexInBounds(ts, j + 1);
        }
      }
    }
  }

  lemma {:induction false} ListInBounds(ts: seq<Token>, i: nat)
    requires Terminated(ts) && 0 < i < |ts|
    ensures Inside(List(ts, i), |ts|)
    decreases |ts| - i, OR + 1, 0
  {
    hide Level;
    LevelInBounds(OR, ts, i);
    if Level(OR, ts, i).Ok? {
      var j := Level(OR, ts, i).value.next;
      if ts[j].kind == Comma {
        ListInBounds(ts, j + 1);
      }
    }
  }

  /** From such a start every level reads in front of the array. */
  lemma {:induction false} LooksBehindFails(lv: nat, ts: seq<Token>, i: nat)
    requires lv <= OR && LooksBehindStart(ts, i)
    ensures Level(lv, ts, i) == OutOfBounds
    decreases lv
  {
    hide OperatorAt;
    if lv > FACTOR {
      LooksBehindFails(lv - 1, ts, i);
    } else {
      assert MemberAccess(ts, i) == OutOfBounds;
      assert Factor(ts, i) == OutOfBounds;
    }
  }

  /** On a terminated array a level reads out of bounds exactly when it starts at index
      0 on a name followed by a bracket; otherwise it leaves the cursor inside the
      array, at the end marker at the latest. */
  lemma {:induction false} OutOfBoundsExactly(lv: nat, ts: seq<Token>, i: nat)
    requires lv <= OR && Terminated(ts) && i < |ts|
    ensures Level(lv, ts, i) == OutOfBounds <==> LooksBehindStart(ts, i)
    ensures Level(lv, ts, i).Ok? ==> Level(lv, ts, i).value.next < |ts|
  {
    if LooksBehindStart(ts, i) {
      LooksBehindFails(lv, ts, i);
    } else {
      LevelInBounds(lv, ts, i);
    }
  }
}
