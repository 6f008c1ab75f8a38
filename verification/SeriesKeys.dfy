/** The identity of a series: its dimension values in dimension order, escaped (internal/alert/filters.go). */
module SeriesKeys {

  /** A backslash and a bar are escaped, so a bar that is not escaped separates two dimensions. */
  function EscapeChar(c: char): string {
    if c == '\\' then "\\\\" else if c == '|' then "\\|" else [c]
  }

  function Escape(s: string): string {
    if s == "" then "" else EscapeChar(s[0]) + Escape(s[1..])
  }

  function Part(name: string, value: string): string {
    name + "=" + Escape(value)
  }

  function Parts(labels: seq<string>, values: seq<string>): string
    requires |labels| == |values| > 0
  {
    Part(labels[0], values[0]) + if |labels| == 1 then "" else "|" + Parts(labels[1..], values[1..])
  }

  function SeriesKey(labels: seq<string>, values: seq<string>): string
    requires |labels| == |values|
  {
    if labels == [] then "*" else Parts(labels, values)
  }

  // ----- the builder -----

  lemma {:induction false} EscapeConcat(a: string, b: string)
    ensures Escape(a + b) == Escape(a) + Escape(b)
  {
    if a == "" {
      assert a + b == b;
    } else {
      assert (a + b)[1..] == a[1..] + b;
      EscapeConcat(a[1..], b);
    }
  }

  method Replace(s: string) returns (r: string)
    ensures r == Escape(s)
  {
    r := "";
    for i := 0 to |s|
      invariant r == Escape(s[..i])
    {
      assert s[..i + 1] == s[..i] + [s[i]];
      EscapeConcat(s[..i], [s[i]]);
      if s[i] == '\\' {
        r := r + "\\\\";
      } else if s[i] == '|' {
        r := r + "\\|";
      } else {
        r := r + [s[i]];
      }
    }
    assert s[..|s|] == s;
  }

  lemma {:induction false} PartsAppend(labels: seq<string>, values: seq<string>, l: string, v: string)
    requires |labels| == |values| > 0
    ensures Parts(labels + [l], values + [v]) == Parts(labels, values) + "|" + Part(l, v)
  {
    hide Part, Escape;
    assert (labels + [l])[1..] == labels[1..] + [l] && (values + [v])[1..] == values[1..] + [v];
    if |labels| > 1 {
      PartsAppend(labels[1..], values[1..], l, v);
      assert Parts(labels + [l], values + [v])
          == Part(labels[0], values[0]) + ("|" + Parts(labels[1..] + [l], values[1..] + [v]));
    } else {
      assert labels[1..] + [l] == [l] && values[1..] + [v] == [v];
    }
  }

  method BuildKey(labels: seq<string>, values: seq<string>) returns (key: string)
    requires |labels| == |values|
    ensures key == SeriesKey(labels, values)
  {
    if |labels| == 0 {
      return "*";
    }
    key := "";
    for i := 0 to |labels|
      invariant i == 0 ==> key == ""
      invariant i > 0 ==> key == Parts(labels[..i], values[..i])
    {
      assert labels[..i + 1] == labels[..i] + [labels[i]] && values[..i + 1] == values[..i] + [values[i]];
      if i > 0 {
        PartsAppend(labels[..i], values[..i], labels[i], values[i]);
        key := key + "|";
      }
      var v := Replace(values[i]);
      key := key + labels[i];
      key := key + "=";
      key := key + v;
    }
    assert labels[..|labels|] == labels && values[..|labels|] == values;
  }

  // ----- identity -----

  /** What may follow an escaped value: the end, or a separator. */
  predicate Separated(rest: string) {
    rest == "" || rest[0] == '|'
  }

  /** An escaped value can be read back: it ends at the first bar that is not escaped. */
  lemma {:induction false} EscapeReadsBack(a: string, x: string, b: string, y: string)
    requires Separated(x) && Separated(y) && Escape(a) + x == Escape(b) + y
    ensures a == b && x == y
  {
    var s, t := Escape(a) + x, Escape(b) + y;
    if a == "" && b == "" {
      assert s == x && t == y;
    } else if a == "" || b == "" {
      NotASeparator(a, x);
      NotASeparator(b, y);
    } else {
      FirstChar(a, x);
      FirstChar(b, y);
      var n := |EscapeChar(a[0])|;
      assert s[n..] == Escape(a[1..]) + x && t[n..] == Escape(b[1..]) + y;
      EscapeReadsBack(a[1..], x, b[1..], y);
    }
  }

  lemma NotASeparator(a: string, x: string)
    ensures a != "" ==> Escape(a) + x != "" && (Escape(a) + x)[0] != '|'
    ensures a == "" ==> Escape(a) + x == x
  {
  }

  /** The first one or two characters give the first character of the value. */
  lemma FirstChar(a: string, x: string)
    requires a != ""
    ensures var s := Escape(a) + x; var e := EscapeChar(a[0]);
            |e| <= |s| && s[..|e|] == e && s[|e|..] == Escape(a[1..]) + x
            && (s[0] == '\\' ==> |s| > 1 && a[0] == s[1]) && (s[0] != '\\' ==> a[0] == s[0])
  {
    assert Escape(a) + x == EscapeChar(a[0]) + (Escape(a[1..]) + x);
  }

  function Rest(labels: seq<string>, values: seq<string>): (r: string)
    requires |labels| == |values| > 0
    ensures Separated(r)
  {
    if |labels| == 1 then "" else "|" + Parts(labels[1..], values[1..])
  }

  /** Behind the first label and its equals sign come the first value and the rest. */
  lemma PartsTail(labels: seq<string>, values: seq<string>)
    requires |labels| == |values| > 0
    ensures |Parts(labels, values)| > |labels[0]|
    ensures Parts(labels, values)[|labels[0]| + 1..] == Escape(values[0]) + Rest(labels, values)
  {
    TailOf(labels[0], Escape(values[0]), Rest(labels, values));
    hide Escape;
  }

  lemma TailOf(name: string, value: string, rest: string)
    ensures (name + "=" + value + rest)[|name| + 1..] == value + rest
  {
    assert name + "=" + value + rest == (name + "=") + (value + rest);
  }

  lemma {:induction false} PartsInjective(labels: seq<string>, v: seq<string>, w: seq<string>)
    requires |labels| == |v| == |w| > 0 && Parts(labels, v) == Parts(labels, w)
    ensures v == w
  {
    PartsTail(labels, v);
    PartsTail(labels, w);
    hide Escape;
    hide Parts;
    var x, y := Rest(labels, v), Rest(labels, w);
    EscapeReadsBack(v[0], x, w[0], y);
    if |labels| > 1 {
      assert x[1..] == Parts(labels[1..], v[1..]) && y[1..] == Parts(labels[1..], w[1..]);
      PartsInjective(labels[1..], v[1..], w[1..]);
    }
    assert v == [v[0]] + v[1..] && w == [w[0]] + w[1..];
  }

  /** Two series of a condition have the same key exactly when all their dimension values agree, for any labels and any
      values, and no series with dimensions takes the key of the one without. */
  lemma KeysIdentifySeries(labels: seq<string>, v: seq<string>, w: seq<string>)
    requires |labels| == |v| == |w|
    ensures SeriesKey(labels, v) == SeriesKey(labels, w) <==> v == w
    ensures labels != [] ==> SeriesKey(labels, v) != "*"
  {
    if labels != [] {
      if SeriesKey(labels, v) == SeriesKey(labels, w) {
        PartsInjective(labels, v, w);
      }
      assert SeriesKey(labels, v)[|labels[0]|] == '=';
    }
  }
}
