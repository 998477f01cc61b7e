/** Python's `string.Template.substitute`, as used to fill the user prompt.

    The template is scanned once, left to right. Every '$' starts a placeholder:
    `$$` stands for one '$', `$name` and `${name}` for the value of `name` in the mapping
    (a name is an ASCII letter or '_' followed by ASCII letters, digits or '_'; the
    unbraced form takes the longest such run). Anything else after a '$' is an invalid
    placeholder (ValueError); a name missing from the mapping is a KeyError. The first
    problem met in the scan is the one raised. Values are copied into the output as they
    are and are never scanned again. */
module StringTemplate {
  import opened Errors

  predicate IsIdentStart(c: char)
  {
    ('a' <= c <= 'z') || ('A' <= c <= 'Z') || c == '_'
  }

  predicate IsIdentChar(c: char)
  {
    IsIdentStart(c) || ('0' <= c <= '9')
  }

  predicate IsIdentifier(s: string)
  {
    |s| > 0 && IsIdentStart(s[0]) && forall i :: 0 < i < |s| ==> IsIdentChar(s[i])
  }

  /** Length of the longest prefix of s made of identifier characters. */
  function IdentRun(s: string): (k: nat)
    ensures k <= |s|
    ensures forall i :: 0 <= i < k ==> IsIdentChar(s[i])
    ensures k < |s| ==> !IsIdentChar(s[k])
  {
    if s == [] || !IsIdentChar(s[0]) then 0 else 1 + IdentRun(s[1..])
  }

  /** Prefixes `text` to a successful string result; an error passes through unchanged. */
  function Prepend(text: string, r: Result<string>): (prefixed: Result<string>)
  {
    match r
    case Ok(s) => Ok(text + s)
    case Err(e) => Err(e)
  }

  /** `Template(t).substitute(mapping)` on the part s of the template t that starts at index
      pos of t (the index is only used to report an invalid placeholder). */
  function SubstituteFrom(s: string, pos: nat, mapping: map<string, string>): (r: Result<string>)
    decreases |s|
  {
    if s == [] then Ok("")
    else if s[0] != '$' then Prepend([s[0]], SubstituteFrom(s[1..], pos + 1, mapping))
    else if |s| >= 2 && s[1] == '$' then Prepend("$", SubstituteFrom(s[2..], pos + 2, mapping))
    else if |s| >= 2 && IsIdentStart(s[1]) then
      var name := s[1..1 + IdentRun(s[1..])];
      if name in mapping then
        Prepend(mapping[name], SubstituteFrom(s[1 + |name|..], pos + 1 + |name|, mapping))
      else Err(KeyError(name))
    else if |s| >= 3 && s[1] == '{' && IsIdentStart(s[2])
            && 2 + IdentRun(s[2..]) < |s| && s[2 + IdentRun(s[2..])] == '}' then
      var name := s[2..2 + IdentRun(s[2..])];
      if name in mapping then
        Prepend(mapping[name], SubstituteFrom(s[3 + |name|..], pos + 3 + |name|, mapping))
      else Err(KeyError(name))
    else Err(ValueError(pos + 1))
  }

  /** `Template(template).substitute(**mapping)`. A ValueError always points just past a
      '$' of the template. */
  function Substitute(template: string, mapping: map<string, string>): (r: Result<string>)
    ensures DollarBefore(template, 0, r)
  {
    ValueErrorFollowsDollar(template, 0, mapping);
    SubstituteFrom(template, 0, mapping)
  }

  /** The index a ValueError reports lies within the scanned part and follows a '$'. */
  lemma {:induction false} ValueErrorFollowsDollar(s: string, pos: nat, mapping: map<string, string>)
    ensures DollarBefore(s, pos, SubstituteFrom(s, pos, mapping))
    decreases |s|
  {
    if s == [] {
    } else if s[0] != '$' {
      ValueErrorFollowsDollar(s[1..], pos + 1, mapping);
      ValueErrorCharStep(s, pos, mapping);
    } else if |s| >= 2 && s[1] == '$' {
      ValueErrorFollowsDollar(s[2..], pos + 2, mapping);
      ValueErrorEscapedStep(s, pos, mapping);
    } else if |s| >= 2 && IsIdentStart(s[1]) {
      var k := 1 + IdentRun(s[1..]);
      ValueErrorFollowsDollar(s[k..], pos + k, mapping);
      ValueErrorNamedStep(s, pos, mapping);
    } else if OpensBraced(s[1..]) {
      var k := 2 + IdentRun(s[2..]) + 1;
      assert s[1..][1..] == s[2..];
      ValueErrorFollowsDollar(s[k..], pos + k, mapping);
      ValueErrorBracedStep(s, pos, mapping);
    } else {
      ValueErrorAtInvalid(s, pos, mapping);
    }
  }

  /** ValueErrorFollowsDollar for a template that starts with a character other than '$'. */
  lemma ValueErrorCharStep(s: string, pos: nat, mapping: map<string, string>)
    requires |s| >= 1 && s[0] != '$'
    requires DollarBefore(s[1..], pos + 1, SubstituteFrom(s[1..], pos + 1, mapping))
    ensures DollarBefore(s, pos, SubstituteFrom(s, pos, mapping))
  {
    ErrorThroughPrefix(s, 1, pos, [s[0]], SubstituteFrom(s[1..], pos + 1, mapping));
  }

  /** ValueErrorFollowsDollar for a template that starts with `$$`. */
  lemma ValueErrorEscapedStep(s: string, pos: nat, mapping: map<string, string>)
    requires |s| >= 2 && s[0] == '$' && s[1] == '$'
    requires DollarBefore(s[2..], pos + 2, SubstituteFrom(s[2..], pos + 2, mapping))
    ensures DollarBefore(s, pos, SubstituteFrom(s, pos, mapping))
  {
    ErrorThroughPrefix(s, 2, pos, "$", SubstituteFrom(s[2..], pos + 2, mapping));
  }

  /** ValueErrorFollowsDollar for a template that starts with `$name`. */
  lemma ValueErrorNamedStep(s: string, pos: nat, mapping: map<string, string>)
    requires |s| >= 2 && s[0] == '$' && s[1] != '$' && IsIdentStart(s[1])
    requires var k := 1 + IdentRun(s[1..]);
      DollarBefore(s[k..], pos + k, SubstituteFrom(s[k..], pos + k, mapping))
    ensures DollarBefore(s, pos, SubstituteFrom(s, pos, mapping))
  {
    var name := s[1..1 + IdentRun(s[1..])];
    if name in mapping {
      var k := 1 + |name|;
      ErrorThroughPrefix(s, k, pos, mapping[name], SubstituteFrom(s[k..], pos + k, mapping));
    }
  }

  /** ValueErrorFollowsDollar for a template that starts with `${name}`. */
  lemma ValueErrorBracedStep(s: string, pos: nat, mapping: map<string, string>)
    requires |s| >= 3 && s[0] == '$' && s[1] != '$' && !IsIdentStart(s[1])
    requires s[1] == '{' && IsIdentStart(s[2]) && 2 + IdentRun(s[2..]) < |s| && s[2 + IdentRun(s[2..])] == '}'
    requires var k := 3 + IdentRun(s[2..]);
      DollarBefore(s[k..], pos + k, SubstituteFrom(s[k..], pos + k, mapping))
    ensures DollarBefore(s, pos, SubstituteFrom(s, pos, mapping))
  {
    var name := s[2..2 + IdentRun(s[2..])];
    if name in mapping {
      var k := 3 + |name|;
      ErrorThroughPrefix(s, k, pos, mapping[name], SubstituteFrom(s[k..], pos + k, mapping));
    }
  }

  /** ValueErrorFollowsDollar for a template that starts with an invalid placeholder. */
  lemma ValueErrorAtInvalid(s: string, pos: nat, mapping: map<string, string>)
    requires |s| >= 1 && s[0] == '$'
    requires |s| >= 2 ==> s[1] != '$' && !IsIdentStart(s[1]) && !OpensBraced(s[1..])
    ensures DollarBefore(s, pos, SubstituteFrom(s, pos, mapping))
  {
    assert s == [] + ("$" + s[1..]);
    SubstituteInvalid([], s[1..], pos, mapping);
  }

  /** r is not a ValueError, or its index lies in s (which starts at pos) just past a '$'. */
  predicate DollarBefore(s: string, pos: nat, r: Result<string>)
  {
    r.Err? && r.error.ValueError? ==>
      pos < r.error.position <= pos + |s| && s[r.error.position - pos - 1] == '$'
  }

  /** A ValueError from the rest of the scan passes through Prepend and still points past a
      '$' of the whole text. */
  lemma ErrorThroughPrefix(s: string, k: nat, pos: nat, x: string, t: Result<string>)
    requires 0 < k <= |s|
    requires DollarBefore(s[k..], pos + k, t)
    ensures DollarBefore(s, pos, Prepend(x, t))
  {
    if t.Err? && t.error.ValueError? {
      assert s[k..][t.error.position - (pos + k) - 1] == s[t.error.position - pos - 1];
    }
  }

  lemma PrependAssoc(a: string, b: string, r: Result<string>)
    ensures Prepend(a, Prepend(b, r)) == Prepend(a + b, r)
  {
    if r.Ok? {
      assert a + (b + r.value) == (a + b) + r.value;
    }
  }

  /** Text without '$' is copied verbatim and the scan goes on right after it. */
  lemma {:induction false} SubstituteText(t: string, rest: string, pos: nat, mapping: map<string, string>)
    requires '$' !in t
    ensures SubstituteFrom(t + rest, pos, mapping) == Prepend(t, SubstituteFrom(rest, pos + |t|, mapping))
  {
    if t == [] {
      assert t + rest == rest;
      var r := SubstituteFrom(rest, pos, mapping);
      assert r.Ok? ==> t + r.value == r.value;
    } else {
      assert (t + rest)[1..] == t[1..] + rest;
      assert '$' !in t[1..] by {
        forall i | 0 <= i < |t[1..]| ensures t[1..][i] != '$' {
          assert t[1..][i] == t[i + 1];
        }
      }
      SubstituteText(t[1..], rest, pos + 1, mapping);
      PrependAssoc([t[0]], t[1..], SubstituteFrom(rest, pos + |t|, mapping));
      assert [t[0]] + t[1..] == t;
    }
  }

  /** The longest identifier run of `name + rest` is `name` when rest does not go on with an
      identifier character. */
  lemma {:induction false} IdentRunOfName(name: string, rest: string)
    requires forall i :: 0 <= i < |name| ==> IsIdentChar(name[i])
    requires rest == [] || !IsIdentChar(rest[0])
    ensures IdentRun(name + rest) == |name|
  {
    if name != [] {
      assert (name + rest)[1..] == name[1..] + rest;
      IdentRunOfName(name[1..], rest);
    } else {
      assert name + rest == rest;
    }
  }

  /** `$name` is replaced by the value of `name`, or the scan stops with KeyError(name). */
  lemma SubstituteNamed(name: string, rest: string, pos: nat, mapping: map<string, string>)
    requires IsIdentifier(name)
    requires rest == [] || !IsIdentChar(rest[0])
    ensures SubstituteFrom("$" + name + rest, pos, mapping) ==
      if name in mapping then Prepend(mapping[name], SubstituteFrom(rest, pos + 1 + |name|, mapping))
      else Err(KeyError(name))
  {
    var s := "$" + name + rest;
    assert s[1..] == name + rest;
    IdentRunOfName(name, rest);
    assert s[1..1 + |name|] == name;
    assert s[1 + |name|..] == rest;
  }

  /** `${name}` is replaced by the value of `name`, or the scan stops with KeyError(name). */
  lemma SubstituteBraced(name: string, rest: string, pos: nat, mapping: map<string, string>)
    requires IsIdentifier(name)
    ensures SubstituteFrom("${" + name + "}" + rest, pos, mapping) ==
      if name in mapping then Prepend(mapping[name], SubstituteFrom(rest, pos + 3 + |name|, mapping))
      else Err(KeyError(name))
  {
    var s := "${" + name + "}" + rest;
    assert s[2..] == name + ("}" + rest);
    IdentRunOfName(name, "}" + rest);
    assert s[2..2 + |name|] == name;
    assert s[2 + |name|] == '}';
    assert s[3 + |name|..] == rest;
  }

  /** `rest` starts with the braced form of a placeholder: '{', an identifier, '}'. */
  predicate OpensBraced(rest: string)
  {
    |rest| >= 2 && rest[0] == '{' && IsIdentStart(rest[1])
    && 1 + IdentRun(rest[1..]) < |rest| && rest[1 + IdentRun(rest[1..])] == '}'
  }

  /** OpensBraced holds exactly for '{', an identifier, '}' and any text after them. */
  lemma OpensBracedOf(name: string, tail: string)
    requires IsIdentifier(name)
    ensures OpensBraced("{" + name + "}" + tail)
  {
    var rest := "{" + name + "}" + tail;
    assert rest[1..] == name + ("}" + tail);
    IdentRunOfName(name, "}" + tail);
  }

  /** The other direction of OpensBracedOf: the name is the identifier run after '{'. */
  lemma OpensBracedName(rest: string)
    requires OpensBraced(rest)
    ensures var name := rest[1..1 + IdentRun(rest[1..])];
      IsIdentifier(name) && rest == "{" + name + "}" + rest[2 + |name|..]
  {
    var k := IdentRun(rest[1..]);
    var name := rest[1..1 + k];
    assert forall i :: 0 < i < |name| ==> IsIdentChar(name[i]) by {
      forall i | 0 < i < |name| ensures IsIdentChar(name[i]) {
        assert name[i] == rest[1..][i];
      }
    }
    assert rest == "{" + name + "}" + rest[2 + |name|..];
  }

  /** A '$' that is neither `$$`, nor followed by a name, nor followed by '{', a name and
      '}' is an invalid placeholder: the scan stops with ValueError at the index right after
      it, whatever text came before. This covers a '$' at the end, `${`, `${}`, `${1}` and
      a `${name` that is never closed. */
  lemma SubstituteInvalid(t: string, rest: string, pos: nat, mapping: map<string, string>)
    requires '$' !in t
    requires rest == [] || (rest[0] != '$' && !IsIdentStart(rest[0]) && !OpensBraced(rest))
    ensures SubstituteFrom(t + ("$" + rest), pos, mapping) == Err(ValueError(pos + |t| + 1))
  {
    SubstituteText(t, "$" + rest, pos, mapping);
    var s := "$" + rest;
    assert s[1..] == rest;
    if |rest| >= 2 {
      assert s[2..] == rest[1..];
    }
  }

  /** `${` and `${}`: a '{' with no name after it. */
  lemma SubstituteEmptyBraces(mapping: map<string, string>)
    ensures Substitute("${", mapping) == Err(ValueError(1))
    ensures Substitute("${}", mapping) == Err(ValueError(1))
  {
    SubstituteInvalid("", "{", 0, mapping);
    SubstituteInvalid("", "{}", 0, mapping);
  }

  /** `${1}`: braces around something that is not a name. */
  lemma SubstituteBracedNonName(mapping: map<string, string>)
    ensures Substitute("${1}", mapping) == Err(ValueError(1))
  {
    SubstituteInvalid("", "{1}", 0, mapping);
  }

  /** `${a`: a name whose brace is never closed. */
  lemma SubstituteUnclosedBrace(mapping: map<string, string>)
    ensures Substitute("${a", mapping) == Err(ValueError(1))
  {
    assert IdentRun("a") == 1;
    SubstituteInvalid("", "{a", 0, mapping);
  }

  /** `a${b c}`: the character after the name is not '}'; the index counts the text before. */
  lemma SubstituteBracedSpace(mapping: map<string, string>)
    ensures Substitute("a${b c}", mapping) == Err(ValueError(2))
  {
    assert IdentRun("b c}") == 1;
    SubstituteInvalid("a", "{b c}", 0, mapping);
  }

  /** A piece of a template written by hand: literal text, or a field to fill. */
  datatype Piece = Text(text: string) | Field(name: string)

  /** Literal text as template text: every '$' doubled. */
  function Escape(t: string): (e: string)
    ensures |e| >= |t|
  {
    if t == [] then ""
    else (if t[0] == '$' then "$$" else [t[0]]) + Escape(t[1..])
  }

  /** The template text of a list of pieces; fields are written in the braced form. */
  function Render(pieces: seq<Piece>): (template: string)
  {
    if pieces == [] then ""
    else
      match pieces[0]
      case Text(t) => Escape(t) + Render(pieces[1..])
      case Field(n) => "${" + n + "}" + Render(pieces[1..])
  }

  /** What filling the pieces should give: the texts as they are, each field replaced by
      its value, in order; the first field without a value is a KeyError. */
  function Expand(pieces: seq<Piece>, mapping: map<string, string>): (r: Result<string>)
  {
    if pieces == [] then Ok("")
    else
      match pieces[0]
      case Text(t) => Prepend(t, Expand(pieces[1..], mapping))
      case Field(n) =>
        if n in mapping then Prepend(mapping[n], Expand(pieces[1..], mapping)) else Err(KeyError(n))
  }

  lemma {:induction false} SubstituteEscape(t: string, rest: string, pos: nat, mapping: map<string, string>)
    ensures SubstituteFrom(Escape(t) + rest, pos, mapping) ==
            Prepend(t, SubstituteFrom(rest, pos + |Escape(t)|, mapping))
  {
    if t == [] {
      assert Escape(t) + rest == rest;
      var r := SubstituteFrom(rest, pos, mapping);
      assert r.Ok? ==> t + r.value == r.value;
    } else {
      var head := if t[0] == '$' then "$$" else [t[0]];
      SubstituteEscape(t[1..], rest, pos + |head|, mapping);
      SubstituteEscapeStep(t, head, rest, pos, mapping);
    }
  }

  /** One step of SubstituteEscape: the escaped first character, then the rest. */
  lemma SubstituteEscapeStep(t: string, head: string, rest: string, pos: nat, mapping: map<string, string>)
    requires t != [] && head == if t[0] == '$' then "$$" else [t[0]]
    requires SubstituteFrom(Escape(t[1..]) + rest, pos + |head|, mapping) ==
             Prepend(t[1..], SubstituteFrom(rest, pos + |head| + |Escape(t[1..])|, mapping))
    ensures SubstituteFrom(Escape(t) + rest, pos, mapping) ==
            Prepend(t, SubstituteFrom(rest, pos + |Escape(t)|, mapping))
  {
    var escapedTail := Escape(t[1..]);
    assert Escape(t) == head + escapedTail;
    SubstituteEscapedChar(t[0], head, escapedTail, rest, pos, mapping, t[1..],
                          SubstituteFrom(rest, pos + |Escape(t)|, mapping));
    assert [t[0]] + t[1..] == t;
  }

  /** The escaped form of one character gives that character, then the scan goes on. */
  lemma SubstituteEscapedChar(c: char, head: string, e: string, rest: string, pos: nat,
                              mapping: map<string, string>, tail: string, z: Result<string>)
    requires head == if c == '$' then "$$" else [c]
    requires SubstituteFrom(e + rest, pos + |head|, mapping) == Prepend(tail, z)
    ensures SubstituteFrom(head + e + rest, pos, mapping) == Prepend([c] + tail, z)
  {
    ConcatAssoc(head, e, rest);
    if c == '$' {
      SubstituteEscapedDollar(e + rest, pos, mapping);
    } else {
      SubstituteChar(c, e + rest, pos, mapping);
    }
    PrependAssoc([c], tail, z);
  }

  /** `$$` gives one '$' and the scan goes on after it. */
  lemma SubstituteEscapedDollar(rest: string, pos: nat, mapping: map<string, string>)
    ensures SubstituteFrom("$$" + rest, pos, mapping) == Prepend("$", SubstituteFrom(rest, pos + 2, mapping))
  {
    assert ("$$" + rest)[2..] == rest;
  }

  /** A character other than '$' is copied and the scan goes on after it. */
  lemma SubstituteChar(c: char, rest: string, pos: nat, mapping: map<string, string>)
    requires c != '$'
    ensures SubstituteFrom([c] + rest, pos, mapping) == Prepend([c], SubstituteFrom(rest, pos + 1, mapping))
  {
    assert ([c] + rest)[1..] == rest;
  }

  /** Round trip: substituting into the rendering of any pieces gives the texts verbatim
      with every field replaced by its value; a value is never scanned for placeholders
      again, whatever it contains. */
  lemma {:induction false} SubstituteRender(pieces: seq<Piece>, pos: nat, mapping: map<string, string>)
    requires forall i :: 0 <= i < |pieces| && pieces[i].Field? ==> IsIdentifier(pieces[i].name)
    ensures SubstituteFrom(Render(pieces), pos, mapping) == Expand(pieces, mapping)
  {
    if pieces != [] {
      var tail := pieces[1..];
      assert forall i :: 0 <= i < |tail| && tail[i].Field? ==> IsIdentifier(tail[i].name) by {
        forall i | 0 <= i < |tail| ensures tail[i] == pieces[i + 1] { }
      }
      if pieces[0].Text? {
        SubstituteRender(tail, pos + |Escape(pieces[0].text)|, mapping);
        SubstituteRenderText(pieces, pos, mapping);
      } else {
        SubstituteRender(tail, pos + 3 + |pieces[0].name|, mapping);
        SubstituteRenderField(pieces, pos, mapping);
      }
    }
  }

  /** SubstituteRender for pieces that start with a text. */
  lemma SubstituteRenderText(pieces: seq<Piece>, pos: nat, mapping: map<string, string>)
    requires pieces != [] && pieces[0].Text?
    requires SubstituteFrom(Render(pieces[1..]), pos + |Escape(pieces[0].text)|, mapping) ==
             Expand(pieces[1..], mapping)
    ensures SubstituteFrom(Render(pieces), pos, mapping) == Expand(pieces, mapping)
  {
    SubstituteEscape(pieces[0].text, Render(pieces[1..]), pos, mapping);
  }

  /** SubstituteRender for pieces that start with a field. */
  lemma SubstituteRenderField(pieces: seq<Piece>, pos: nat, mapping: map<string, string>)
    requires pieces != [] && pieces[0].Field? && IsIdentifier(pieces[0].name)
    requires SubstituteFrom(Render(pieces[1..]), pos + 3 + |pieces[0].name|, mapping) ==
             Expand(pieces[1..], mapping)
    ensures SubstituteFrom(Render(pieces), pos, mapping) == Expand(pieces, mapping)
  {
    var n, tail := pieces[0].name, pieces[1..];
    assert Render(pieces) == "${" + n + "}" + Render(tail);
    assert Expand(pieces, mapping) ==
           if n in mapping then Prepend(mapping[n], Expand(tail, mapping)) else Err(KeyError(n));
    SubstituteBraced(n, Render(tail), pos, mapping);
  }

  /** The first of `keys` that `m` lacks. */
  function FirstMissing<V>(keys: seq<string>, m: map<string, V>): (k: string)
    requires exists i :: 0 <= i < |keys| && keys[i] !in m
    ensures k !in m
    ensures exists i :: 0 <= i < |keys| && keys[i] == k && forall j :: 0 <= j < i ==> keys[j] in m
  {
    if keys[0] !in m then keys[0]
    else
      assert exists i :: 0 <= i < |keys[1..]| && keys[1..][i] !in m by {
        var i :| 0 <= i < |keys| && keys[i] !in m;
        assert keys[1..][i - 1] == keys[i];
      }
      var k := FirstMissing(keys[1..], m);
      assert exists i :: 0 <= i < |keys| && keys[i] == k && forall j :: 0 <= j < i ==> keys[j] in m by {
        var i :| 0 <= i < |keys[1..]| && keys[1..][i] == k && forall j :: 0 <= j < i ==> keys[1..][j] in m;
        assert keys[i + 1] == k;
        forall j | 0 <= j < i + 1 ensures keys[j] in m {
          if j > 0 { assert keys[j] == keys[1..][j - 1]; }
        }
      }
      k
  }

  /** Which key is missing first depends only on which of `keys` the map holds. */
  lemma {:induction false} FirstMissingSameKeys<V, W>(keys: seq<string>, m: map<string, V>, n: map<string, W>)
    requires exists i :: 0 <= i < |keys| && keys[i] !in m
    requires forall i :: 0 <= i < |keys| ==> (keys[i] in m <==> keys[i] in n)
    ensures exists i :: 0 <= i < |keys| && keys[i] !in n
    ensures FirstMissing(keys, m) == FirstMissing(keys, n)
  {
    var i :| 0 <= i < |keys| && keys[i] !in m;
    assert keys[i] !in n;
    if keys[0] in m {
      assert keys[1..][i - 1] == keys[i];
      FirstMissingSameKeys(keys[1..], m, n);
    }
  }

  /** texts[0] + values[0] + texts[1] + ... + texts[n]: a text with values put between its
      literal parts. */
  function Weave(texts: seq<string>, values: seq<string>): (woven: string)
    requires |texts| == |values| + 1
  {
    if values == [] then texts[0] else texts[0] + values[0] + Weave(texts[1..], values[1..])
  }

  /** The placeholders `$name` for the given names. */
  function Dollars(names: seq<string>): (r: seq<string>)
    ensures |r| == |names|
  {
    seq(|names|, i requires 0 <= i < |names| => "$" + names[i])
  }

  /** The values of the given keys. */
  function Lookup(keys: seq<string>, m: map<string, string>): (r: seq<string>)
    requires forall k :: k in keys ==> k in m
    ensures |r| == |keys|
  {
    seq(|keys|, i requires 0 <= i < |keys| => m[keys[i]])
  }

  lemma WeaveDollarsStep(texts: seq<string>, names: seq<string>)
    requires |texts| == |names| + 1 && names != []
    ensures Weave(texts, Dollars(names)) ==
            texts[0] + ("$" + names[0] + Weave(texts[1..], Dollars(names[1..])))
  {
    var ds := Dollars(names);
    assert ds[1..] == Dollars(names[1..]);
    var w := Weave(texts[1..], ds[1..]);
    assert Weave(texts, ds) == texts[0] + ds[0] + w;
    ConcatAssoc(texts[0], ds[0], w);
  }

  lemma ConcatAssoc(a: string, b: string, c: string)
    ensures a + b + c == a + (b + c)
  {
  }

  lemma WeaveLookupStep(texts: seq<string>, names: seq<string>, mapping: map<string, string>)
    requires |texts| == |names| + 1 && names != []
    requires forall k :: k in names ==> k in mapping
    ensures Weave(texts, Lookup(names, mapping)) ==
            texts[0] + mapping[names[0]] + Weave(texts[1..], Lookup(names[1..], mapping))
  {
    var vs := Lookup(names, mapping);
    assert vs[1..] == Lookup(names[1..], mapping);
    assert Weave(texts, vs) == texts[0] + vs[0] + Weave(texts[1..], vs[1..]);
  }

  /** A '$'-free text, then `$name`, then the rest of the template. */
  lemma SubstituteTextThenName(text: string, name: string, rest: string, pos: nat,
                               mapping: map<string, string>)
    requires '$' !in text && IsIdentifier(name)
    requires rest == [] || !IsIdentChar(rest[0])
    ensures SubstituteFrom(text + ("$" + name + rest), pos, mapping) ==
      if name in mapping then
        Prepend(text + mapping[name], SubstituteFrom(rest, pos + |text| + 1 + |name|, mapping))
      else Err(KeyError(name))
  {
    SubstituteText(text, "$" + name + rest, pos, mapping);
    SubstituteNamed(name, rest, pos + |text|, mapping);
    if name in mapping {
      PrependAssoc(text, mapping[name], SubstituteFrom(rest, pos + |text| + 1 + |name|, mapping));
    }
  }

  /** A template made of '$'-free texts separated by `$name` placeholders, where no text goes
      on with an identifier character right after a placeholder, fills with the values in
      place of the placeholders, or fails with KeyError for the first name missing. */
  lemma {:induction false} SubstituteWoven(texts: seq<string>, names: seq<string>, pos: nat,
                                          mapping: map<string, string>)
    requires |texts| == |names| + 1
    requires forall i :: 0 <= i < |texts| ==> '$' !in texts[i]
    requires forall i :: 0 <= i < |names| ==> IsIdentifier(names[i])
    requires forall i :: 1 <= i < |texts| ==> texts[i] != [] && !IsIdentChar(texts[i][0])
    ensures SubstituteFrom(Weave(texts, Dollars(names)), pos, mapping) ==
      if forall k :: k in names ==> k in mapping then Ok(Weave(texts, Lookup(names, mapping)))
      else Err(KeyError(FirstMissing(names, mapping)))
  {
    if names == [] {
      SubstituteText(texts[0], [], pos, mapping);
      assert texts[0] + [] == texts[0];
      assert SubstituteFrom([], pos + |texts[0]|, mapping) == Ok([]);
    } else {
      var t, n := texts[0], names[0];
      var rest := Weave(texts[1..], Dollars(names[1..]));
      WeaveDollarsStep(texts, names);
      assert texts[1..][0] == texts[1];
      SubstituteTextThenName(t, n, rest, pos, mapping);
      var pos' := pos + |t| + 1 + |n|;
      SubstituteWoven(texts[1..], names[1..], pos', mapping);
      if n in mapping {
        if forall k :: k in names ==> k in mapping {
          WeaveLookupStep(texts, names, mapping);
        } else {
          assert !(forall k :: k in names[1..] ==> k in mapping) by {
            var k :| k in names && k !in mapping;
            var i :| 0 <= i < |names| && names[i] == k;
            assert names[1..][i - 1] == k;
          }
        }
      }
    }
  }
}
