/** How `sc_write` lays out a datum: where it puts brackets, spaces and points, and how it escapes a character. */
module SExprLayout {
  import opened SExpr
  import opened SExprSpell

  /** The elements of a list: the left sides along the chain of right sides. */
  function Elements(d: Datum): seq<Datum> {
    if d.Pair? then [d.car] + Elements(d.cdr) else []
  }

  /** What the chain ends in. */
  function Last(d: Datum): (e: Datum)
    ensures !e.Pair? && (d.Pair? ==> e < d)
  {
    if d.Pair? then Last(d.cdr) else d
  }

  /** One text for each element. */
  ghost predicate Texts(ts: seq<string>, ds: seq<Datum>) {
    |ts| == |ds| && forall k :: 0 <= k < |ds| ==> ts[k] == Write(ds[k])
  }

  /** The texts with one space between any two. */
  function Spaced(ts: seq<string>): string {
    if ts == [] then "" else if |ts| == 1 then ts[0] else Spaced(ts[..|ts| - 1]) + " " + ts[|ts| - 1]
  }

  lemma {:induction false} SpacedCons(t: string, ts: seq<string>)
    requires ts != []
    ensures Spaced([t] + ts) == t + " " + Spaced(ts)
  {
    if |ts| == 1 {
      assert ([t] + ts)[..1] == [t];
    } else {
      SpacedCons(t, ts[..|ts| - 1]);
      assert ([t] + ts)[..|ts|] == [t] + ts[..|ts| - 1];
    }
  }

  lemma {:induction false} TailLayout(d: Datum, ts: seq<string>)
    requires d.Pair? && Texts(ts, Elements(d))
    ensures WriteTail(d) == Spaced(ts) + (if Last(d).Nil? then "" else " . " + Write(Last(d))) + ")"
  {
    hide Write;
    assert ts[0] == Write(d.car);
    if d.cdr.Pair? {
      assert Texts(ts[1..], Elements(d.cdr));
      TailLayout(d.cdr, ts[1..]);
      assert ts == [ts[0]] + ts[1..];
      SpacedCons(ts[0], ts[1..]);
    } else {
      assert ts == [ts[0]];
    }
  }

  /** A list is written in parentheses, its elements with one space between any two; what it ends in follows a
      point with one space on either side, unless it is the empty list. */
  lemma ListLayout(d: Datum, ts: seq<string>)
    requires d.Pair? && Texts(ts, Elements(d))
    ensures Write(d) == "(" + (Spaced(ts) + (if Last(d).Nil? then "" else " . " + Write(Last(d))) + ")")
  {
    hide WriteTail;
    TailLayout(d, ts);
  }

  /** A character is written as it is just if it is printable and neither the quotation mark nor the backslash.
      One that has an escape is written with it. */
  lemma CharLayout(c: char, e: char)
    ensures EscapeChar(c) == [c] <==> c >= ' ' && c != '"' && c != '\\'
    ensures e in ESCAPES && ESCAPES[e] == c ==> EscapeChar(c) == ['\\', e]
    ensures c == '"' || c == '\\' ==> EscapeChar(c) == ['\\', c]
  {
  }

  /** Any other one is written by its code, in the fewest lower-case digits. */
  lemma CodeLayout(c: char, high: nat, low: nat)
    requires c < ' ' && (forall e :: e in ESCAPES ==> ESCAPES[e] != c) && high < 16 && low < 16 && c as nat == 16 * high + low
    ensures EscapeChar(c) == "\\x" + (if high == 0 then "" else "1") + ["0123456789abcdef"[low]]
  {
    assert '0' in ESCAPES && 'b' in ESCAPES && 'f' in ESCAPES && 'n' in ESCAPES && 'r' in ESCAPES && 't' in ESCAPES && 'v' in ESCAPES;
  }

  /** A text is written character by character. */
  lemma {:induction false} TextLayout(s: string, t: string)
    ensures EscapeText(s + t) == EscapeText(s) + EscapeText(t)
  {
    hide EscapeChar;
    if s == "" {
      assert s + t == t;
    } else {
      assert (s + t)[0] == s[0] && (s + t)[1..] == s[1..] + t;
      TextLayout(s[1..], t);
    }
  }
}
