/** The admin colour-picker widget of the recipes app: how a submitted
    colour is read back (leading '#' stripped), how a stored colour is shown
    (one '#' prefixed) and which entries of the colour table are offered. */
module Widgets {
  import opened Common

  /** `s.lstrip('#')`: every leading '#' removed. */
  function LStripHash(s: string): (r: string)
    ensures |r| <= |s| && r == s[|s| - |r|..]
    ensures forall i :: 0 <= i < |s| - |r| ==> s[i] == '#'
    ensures r == [] || r[0] != '#'
  {
    if s != [] && s[0] == '#' then LStripHash(s[1..]) else s
  }

  /** Stripping is idempotent. */
  lemma LStripHashIdempotent(s: string)
    ensures LStripHash(LStripHash(s)) == LStripHash(s)
  {
  }

  /** `value_from_datadict`: `data.get(name)`, stripped of leading '#' when
      it is a non-empty string; a missing or empty value is returned as is. */
  function ValueFromDatadict(data: map<string, string>, name: string): (r: Option<string>)
    ensures name !in data ==> r == None
    ensures name in data && data[name] == [] ==> r == Some([])
    ensures name in data && data[name] != [] ==>
      var v := data[name];
      && r.Some?
      && |r.value| <= |v| && r.value == v[|v| - |r.value|..]
      && (forall i :: 0 <= i < |v| - |r.value| ==> v[i] == '#')
      && (r.value == [] || r.value[0] != '#')
  {
    if name !in data then None
    else if data[name] == [] then Some(data[name])
    else Some(LStripHash(data[name]))
  }

  /** Reading a value back from the data it was read from changes nothing. */
  lemma {:induction false} ValueFromDatadictIdempotent(data: map<string, string>, name: string)
    requires ValueFromDatadict(data, name).Some?
    ensures ValueFromDatadict(data[name := ValueFromDatadict(data, name).value], name)
         == ValueFromDatadict(data, name)
  {
    LStripHashIdempotent(data[name]);
  }

  /** The value handed to the template by `render`: a non-empty value that
      does not start with '#' gets exactly one '#' in front; anything else is
      passed through. */
  function RenderValue(value: Option<string>): (r: Option<string>)
    ensures r.Some? <==> value.Some?
    ensures value.Some? ==> (r.value == [] <==> value.value == [])
    ensures value.Some? && value.value != [] ==> r.value[0] == '#'
    ensures value.Some? && value.value != [] && value.value[0] == '#' ==> r == value
    ensures value.Some? && value.value != [] && value.value[0] != '#' ==>
      |r.value| == |value.value| + 1 && r.value[1..] == value.value
  {
    if value.Some? && value.value != [] && value.value[0] != '#' then Some("#" + value.value)
    else value
  }

  /** Showing a value and reading the shown value back gives what reading
      the original value gives: the '#' added by `render` is the one
      `value_from_datadict` removes. */
  lemma {:induction false} RenderThenRead(v: string)
    requires v != []
    ensures LStripHash(RenderValue(Some(v)).value) == LStripHash(v)
  {
    if v[0] != '#' {
      var w := RenderValue(Some(v)).value;
      assert w[0] == '#' && w[1..] == v;
    }
  }

  /** Reading a colour and showing it again yields it with exactly one
      leading '#'. */
  lemma {:induction false} ReadThenRender(data: map<string, string>, name: string)
    requires name in data
    requires ValueFromDatadict(data, name).Some? && ValueFromDatadict(data, name).value != []
    ensures var r := ValueFromDatadict(data, name).value;
      RenderValue(Some(r)) == Some("#" + r) && (r)[0] != '#'
  {
  }

  /** A colour written "#rrggbb" with hexadecimal digits. */
  predicate IsHexDigit(c: char) {
    '0' <= c <= '9' || 'a' <= c <= 'f' || 'A' <= c <= 'F'
  }

  predicate IsHexColor(s: string) {
    |s| == 7 && s[0] == '#' && forall i :: 1 <= i < 7 ==> IsHexDigit(s[i])
  }

  /** `SELECTED_COLORS` as written: the colour table is the list of items of
      a mapping from hexadecimal value to colour name, so each item is a
      (hex, name) pair; the generator binds the pair as `name, hex_value` and
      therefore yields the SECOND component, the name, when it has at most 7
      characters. */
  function SelectedColorsAsWritten(namedColors: seq<(string, string)>): (r: seq<string>)
    ensures forall c :: c in r ==> |c| <= 7 && exists p :: p in namedColors && p.1 == c
    ensures forall p :: p in namedColors && |p.1| <= 7 ==> p.1 in r
  {
    if namedColors == [] then []
    else
      var rest := SelectedColorsAsWritten(namedColors[1..]);
      assert forall p :: p in namedColors[1..] ==> p in namedColors;
      if |namedColors[0].1| <= 7 then [namedColors[0].1] + rest else rest
  }

  /** With the CSS3 entry for aqua the generator offers the name "aqua",
      which is not a hexadecimal colour. */
  lemma SelectedColorsAsWrittenYieldsNames()
    ensures SelectedColorsAsWritten([("#00ffff", "aqua")]) == ["aqua"]
    ensures !IsHexColor("aqua")
  {
    assert SelectedColorsAsWritten([("#00ffff", "aqua")][1..]) == [];
  }

  /** `SELECTED_COLORS` as intended: the hexadecimal value of every table
      entry whose value has at most 7 characters, in table order. */
  function SelectedColors(namedColors: seq<(string, string)>): (r: seq<string>)
    ensures forall c :: c in r ==> |c| <= 7 && exists p :: p in namedColors && p.0 == c
    ensures forall p :: p in namedColors && |p.0| <= 7 ==> p.0 in r
  {
    if namedColors == [] then []
    else
      var rest := SelectedColors(namedColors[1..]);
      assert forall p :: p in namedColors[1..] ==> p in namedColors;
      if |namedColors[0].0| <= 7 then [namedColors[0].0] + rest else rest
  }

  /** When the table's keys are hexadecimal colours, every offered entry is
      one, and every entry of the table is offered. */
  lemma {:induction false} SelectedColorsAreHex(namedColors: seq<(string, string)>)
    requires forall p :: p in namedColors ==> IsHexColor(p.0)
    ensures forall c :: c in SelectedColors(namedColors) ==> IsHexColor(c)
    ensures forall p :: p in namedColors ==> p.0 in SelectedColors(namedColors)
  {
    forall c | c in SelectedColors(namedColors) ensures IsHexColor(c) {
      var p :| p in namedColors && p.0 == c;
    }
  }
}
