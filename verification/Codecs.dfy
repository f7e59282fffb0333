/** Splitting on a separator as Python's `str.split(sep)` and `sep.join` do it. */
module Separators {
  function Split(s: string, sep: char): (parts: seq<string>)
    ensures |parts| >= 1
  {
    if s == "" then [""]
    else
      var rest := Split(s[1..], sep);
      if s[0] == sep then [""] + rest else [[s[0]] + rest[0]] + rest[1..]
  }

  function Join(parts: seq<string>, sep: char): string {
    if parts == [] then ""
    else if |parts| == 1 then parts[0]
    else parts[0] + [sep] + Join(parts[1..], sep)
  }

  predicate FreeOf(s: string, sep: char) {
    sep !in s
  }

  lemma {:induction false} PartsAreFree(s: string, sep: char)
    ensures forall i :: 0 <= i < |Split(s, sep)| ==> FreeOf(Split(s, sep)[i], sep)
  {
    if s != "" { PartsAreFree(s[1..], sep); }
  }

  lemma {:induction false} SplitFree(s: string, sep: char)
    requires FreeOf(s, sep)
    ensures Split(s, sep) == [s]
  {
    if s != "" {
      assert s == [s[0]] + s[1..];
      SplitFree(s[1..], sep);
    }
  }

  lemma SplitCons(c: char, s: string, sep: char)
    ensures var rest := Split(s, sep);
            Split([c] + s, sep) == if c == sep then [""] + rest else [[c] + rest[0]] + rest[1..]
  {
    assert ([c] + s)[1..] == s;
  }

  lemma {:induction false} SplitConcat(a: string, sep: char, b: string)
    ensures Split(a + [sep] + b, sep) == Split(a, sep) + Split(b, sep)
  {
    hide Split;
    if a == "" {
      SplitFree("", sep);
      SplitCons(sep, b, sep);
      assert a + [sep] + b == [sep] + b;
    } else {
      var tail := a[1..];
      SplitConcat(tail, sep, b);
      SplitCons(a[0], tail, sep);
      SplitCons(a[0], tail + [sep] + b, sep);
      assert a == [a[0]] + tail;
      assert a + [sep] + b == [a[0]] + (tail + [sep] + b);
      SameHead(Split(tail, sep), Split(b, sep), a[0]);
    }
  }

  lemma SameHead(r: seq<string>, b: seq<string>, c: char)
    requires r != []
    ensures [""] + (r + b) == ([""] + r) + b
    ensures [[c] + (r + b)[0]] + (r + b)[1..] == ([[c] + r[0]] + r[1..]) + b
  {
  }

  lemma JoinCons(c: char, r: seq<string>, sep: char)
    requires r != []
    ensures Join([""] + r, sep) == [sep] + Join(r, sep)
    ensures Join([[c] + r[0]] + r[1..], sep) == [c] + Join(r, sep)
  {
    assert ([""] + r)[1..] == r;
    assert ([[c] + r[0]] + r[1..])[1..] == r[1..];
  }

  lemma {:induction false} JoinSplit(s: string, sep: char)
    ensures Join(Split(s, sep), sep) == s
  {
    if s == "" {
      assert Split(s, sep) == [""];
    } else {
      hide Split, Join;
      var tail := s[1..];
      assert s == [s[0]] + tail;
      JoinSplit(tail, sep);
      SplitCons(s[0], tail, sep);
      JoinCons(s[0], Split(tail, sep), sep);
    }
  }
}

/** `SessionKeyCodec` of src/acp/helper.py. */
module SessionKeys {
  import opened Wrappers
  import opened Separators

  const PLACEHOLDER := "_default_"

  datatype Parts = Parts(chat: string, project: Option<string>, thread: Option<string>)

  predicate Given(s: Option<string>) { s.Some? && s.value != "" }

  function Encode(p: Parts): string {
    var base := p.chat + [':'] + (if Given(p.project) then p.project.value else PLACEHOLDER);
    if Given(p.thread) then base + [':'] + "t" + [':'] + p.thread.value else base
  }

  function Decode(key: string): Parts {
    if key == "" then Parts("", None, None)
    else
      var parts := Split(key, ':');
      Parts(
        parts[0],
        if |parts| >= 2 && parts[1] != "" && parts[1] != PLACEHOLDER then Some(parts[1]) else None,
        if |parts| >= 4 && parts[2] == "t" then Some(parts[3]) else None)
  }

  /** Parts a key can carry: no colons, nothing given as empty, no project named like the
      placeholder. */
  predicate Encodable(p: Parts) {
    && FreeOf(p.chat, ':')
    && (p.project.Some? ==> p.project.value != "" && FreeOf(p.project.value, ':') && p.project.value != PLACEHOLDER)
    && (p.thread.Some? ==> p.thread.value != "" && FreeOf(p.thread.value, ':'))
  }

  lemma BaseParts(chat: string, project: string)
    requires FreeOf(chat, ':') && FreeOf(project, ':')
    ensures Split(chat + [':'] + project, ':') == [chat, project]
  {
    hide Split, FreeOf;
    SplitConcat(chat, ':', project);
    SplitFree(chat, ':');
    SplitFree(project, ':');
  }

  lemma EncodedParts(p: Parts)
    requires FreeOf(p.chat, ':') && (Given(p.project) ==> FreeOf(p.project.value, ':'))
    ensures var base := [p.chat, if Given(p.project) then p.project.value else PLACEHOLDER];
            Split(Encode(p), ':') == if Given(p.thread) then base + ["t"] + Split(p.thread.value, ':') else base
  {
    var project := if Given(p.project) then p.project.value else PLACEHOLDER;
    assert FreeOf(project, ':') && FreeOf("t", ':');
    hide Split, FreeOf, PLACEHOLDER;
    BaseParts(p.chat, project);
    if Given(p.thread) {
      var base := p.chat + [':'] + project;
      SplitConcat(base + [':'] + "t", ':', p.thread.value);
      SplitConcat(base, ':', "t");
      SplitFree("t", ':');
    }
  }

  /** Decoding undoes encoding exactly for the encodable parts. */
  lemma RoundTripExactly(p: Parts)
    ensures Decode(Encode(p)) == p <==> Encodable(p)
  {
    PartsAreFree(Encode(p), ':');
    if FreeOf(p.chat, ':') && (Given(p.project) ==> FreeOf(p.project.value, ':')) {
      EncodedParts(p);
      if Given(p.thread) && FreeOf(p.thread.value, ':') { SplitFree(p.thread.value, ':'); }
    }
  }

  lemma EncodeIsInjective(p: Parts, q: Parts)
    requires Encodable(p) && Encodable(q) && Encode(p) == Encode(q)
    ensures p == q
  {
    RoundTripExactly(p);
    RoundTripExactly(q);
  }
}

/** Printing and parsing of Traex model selections (src/acp/traex_selection.py). */
module TraexSelection {
  import opened Wrappers
  import opened Strings
  import opened Separators

  predicate IsProfile(s: string) { s == "standard" || s == "max" }

  predicate IsEffort(s: string) {
    s == "none" || s == "minimal" || s == "low" || s == "medium" || s == "high" || s == "xhigh" || s == "max" || s == "ultra"
  }

  datatype Selection = Selection(model: string, profile: string, effort: Option<string>)

  function Compose(model: string, profile: string, effort: Option<string>): string {
    var m := Strip(model);
    var p := Norm(if profile == "" then "standard" else profile);
    var e := if effort.Some? then Norm(effort.value) else "";
    if m == "" then ""
    else if e != "" then m + ['/'] + p + ['/'] + e
    else if p != "standard" then m + ['/'] + p
    else m
  }

  function NonEmpty(parts: seq<string>): seq<string> {
    if parts == [] then [] else (if parts[0] == "" then [] else [parts[0]]) + NonEmpty(parts[1..])
  }

  function Parse(value: string): Selection {
    var selection := Strip(value);
    var parts := NonEmpty(Split(selection, '/'));
    var n := |parts|;
    if selection == "" then Selection("", "standard", None)
    else if n >= 3 && IsEffort(Fold(parts[n - 1])) then
      Selection(Join(parts[..n - 2], '/'), Fold(parts[n - 2]), Some(Fold(parts[n - 1])))
    else if n >= 2 && IsProfile(Fold(parts[n - 1])) then
      Selection(Join(parts[..n - 1], '/'), Fold(parts[n - 1]), None)
    else if n >= 2 && IsEffort(Fold(parts[n - 1])) then
      if Fold(parts[n - 1]) == "max" then Selection(Join(parts[..n - 1], '/'), "max", None)
      else Selection(Join(parts[..n - 1], '/'), "standard", Some(Fold(parts[n - 1])))
    else Selection(selection, "standard", None)
  }

  /** A model name without outer white space and without empty segments. */
  predicate Normalized(model: string) {
    model != "" && Strip(model) == model && forall i :: 0 <= i < |Split(model, '/')| ==> Split(model, '/')[i] != ""
  }

  lemma StripOf(s: string)
    requires s != "" && !IsSpace(s[0]) && !IsSpace(s[|s| - 1])
    ensures Strip(s) == s
  {
  }

  lemma TokensArePlain(s: string)
    requires IsProfile(s) || IsEffort(s)
    ensures PlainToken(s) && Norm(s) == s && Fold(s) == s && FreeOf(s, '/')
  {
    assert PlainToken(s);
    NormOfPlain(s);
    assert Strip(s) == s by { StripOf(s); }
  }

  lemma {:induction false} NothingEmpty(parts: seq<string>)
    requires forall i :: 0 <= i < |parts| ==> parts[i] != ""
    ensures NonEmpty(parts) == parts
  {
    if parts != [] { NothingEmpty(parts[1..]); }
  }

  /** A string that starts like a normalized model and ends in a plain token has no outer space. */
  lemma NoOuterSpace(model: string, middle: string, token: string)
    requires Normalized(model) && PlainToken(token)
    ensures var s := model + middle + token;
            Strip(s) == s && s != ""
  {
    hide Split;
    var s := model + middle + token;
    assert s[0] == model[0] && s[|s| - 1] == token[|token| - 1];
    StripOf(s);
  }

  lemma OneMoreSegment(s: string, token: string)
    requires FreeOf(token, '/') && token != ""
    requires forall i :: 0 <= i < |Split(s, '/')| ==> Split(s, '/')[i] != ""
    ensures Split(s + ['/'] + token, '/') == Split(s, '/') + [token]
    ensures NonEmpty(Split(s + ['/'] + token, '/')) == Split(s, '/') + [token]
  {
    hide Split, FreeOf, NonEmpty;
    SplitConcat(s, '/', token);
    SplitFree(token, '/');
    NothingEmpty(Split(s, '/') + [token]);
  }

  /** The segments of a composed selection. */
  lemma Segments(model: string, tail: seq<string>)
    requires Normalized(model) && forall i :: 0 <= i < |tail| ==> PlainToken(tail[i]) && FreeOf(tail[i], '/')
    requires 1 <= |tail| <= 2
    ensures var s := if |tail| == 1 then model + ['/'] + tail[0] else model + ['/'] + tail[0] + ['/'] + tail[1];
            Strip(s) == s && s != "" && NonEmpty(Split(s, '/')) == Split(model, '/') + tail
  {
    hide Split, FreeOf, NonEmpty, Strip;
    var s1 := model + ['/'] + tail[0];
    OneMoreSegment(model, tail[0]);
    if |tail| == 1 {
      NoOuterSpace(model, ['/'], tail[0]);
      assert Split(model, '/') + [tail[0]] == Split(model, '/') + tail;
    } else {
      OneMoreSegment(s1, tail[1]);
      assert s1 + ['/'] + tail[1] == model + (['/'] + tail[0] + ['/']) + tail[1];
      NoOuterSpace(model, ['/'] + tail[0] + ['/'], tail[1]);
      assert Split(model, '/') + [tail[0]] + [tail[1]] == Split(model, '/') + tail;
    }
  }

  /** Parsing undoes composing, for every profile and effort, exactly when the effort is given,
      or the model has one segment, or the profile is the standard one and the last segment
      does not read as a profile or an effort. */
  predicate Unambiguous(model: string, profile: string, effort: Option<string>) {
    var segments := Split(model, '/');
    var last := Fold(segments[|segments| - 1]);
    effort.Some? || |segments| == 1 || (profile == "standard" && !IsProfile(last) && !IsEffort(last))
  }

  lemma RoundTripExactly(model: string, profile: string, effort: Option<string>)
    requires Normalized(model) && IsProfile(profile) && (effort.Some? ==> IsEffort(effort.value))
    ensures Parse(Compose(model, profile, effort)) == Selection(model, profile, effort) <==> Unambiguous(model, profile, effort)
  {
    TokensArePlain(profile);
    if effort.Some? {
      TokensArePlain(effort.value);
      WithEffort(model, profile, effort.value);
    } else if profile == "max" {
      ProfileOnly(model);
    } else {
      ModelOnly(model);
    }
  }

  lemma WithEffort(model: string, profile: string, effort: string)
    requires Normalized(model) && IsProfile(profile) && IsEffort(effort)
    ensures Parse(Compose(model, profile, Some(effort))) == Selection(model, profile, Some(effort))
  {
    hide Strip, Norm, Fold, Split, Join;
    TokensArePlain(profile);
    TokensArePlain(effort);
    Segments(model, [profile, effort]);
    var parts := Split(model, '/') + [profile, effort];
    assert parts[..|parts| - 2] == Split(model, '/');
    JoinSplit(model, '/');
  }

  lemma ProfileOnly(model: string)
    requires Normalized(model)
    ensures Parse(Compose(model, "max", None)) == Selection(model, "max", None) <==> |Split(model, '/')| == 1
  {
    hide Strip, Norm, Fold, Split, Join;
    TokensArePlain("max");
    Segments(model, ["max"]);
    var parts := Split(model, '/') + ["max"];
    assert parts[..|parts| - 1] == Split(model, '/');
    JoinSplit(model, '/');
  }

  lemma ModelOnly(model: string)
    requires Normalized(model)
    ensures Parse(Compose(model, "standard", None)) == Selection(model, "standard", None) <==> Unambiguous(model, "standard", None)
  {
    hide Strip, Norm, Fold, Split, Join;
    TokensArePlain("standard");
    var parts := Split(model, '/');
    NothingEmpty(parts);
    JoinSplit(model, '/');
    if |parts| >= 2 { JoinIsShorter(parts, '/', |parts| - 1); }
    if |parts| >= 3 { JoinIsShorter(parts, '/', |parts| - 2); }
  }

  lemma {:induction false} JoinIsShorter(parts: seq<string>, sep: char, n: nat)
    requires 1 <= n < |parts|
    ensures |Join(parts[..n], sep)| < |Join(parts, sep)|
  {
    if n > 1 {
      JoinIsShorter(parts[1..], sep, n - 1);
      assert parts[..n][1..] == parts[1..][..n - 1];
    }
  }
}
