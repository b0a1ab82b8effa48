/**
 Query-parameter lookup (`getParameterByName`, main.js:196-206). After
 escaping, `name` is matched literally by the pattern
 `[?&]name(=([^&#]*)|&|#|$)`; the leftmost match decides the result.
 */
module QueryParams {
  import opened Strings

  /** Where the name ends, for a match starting at `i`. */
  function NameEnd(name: string, i: nat): nat {
    i + 1 + |name|
  }

  /**
   The pattern matches at position `i` of `url`: a `?` or `&`, then `name`,
   then `=`, `&`, `#` or the end of the text.
   */
  predicate ParamAt(url: string, name: string, i: nat) {
    && i < |url|
    && (url[i] == '?' || url[i] == '&')
    && StartsWith(url[i + 1..], name)
    && var j := NameEnd(name, i);
       j == |url| || url[j] == '=' || url[j] == '&' || url[j] == '#'
  }

  /** Capture group 2: the text after `=` up to the next `&` or `#`; absent when no `=` follows the name. */
  function ValueGroup(url: string, name: string, i: nat): Option<string>
    requires ParamAt(url, name, i)
  {
    var j := NameEnd(name, i);
    if j < |url| && url[j] == '=' then Some(TakeUntil(url[j + 1..], {'&', '#'})) else None
  }

  /** The leftmost position at or after `from` where the pattern matches. */
  function FirstParamFrom(url: string, name: string, from: nat): (r: Option<nat>)
    decreases |url| - from
    ensures r.None? <==> forall i :: from <= i < |url| ==> !ParamAt(url, name, i)
    ensures r.Some? ==> from <= r.value && ParamAt(url, name, r.value)
                        && forall i :: from <= i < r.value ==> !ParamAt(url, name, i)
  {
    if from >= |url| then None
    else if ParamAt(url, name, from) then Some(from)
    else FirstParamFrom(url, name, from + 1)
  }

  /** `s.replace(/\+/g, ' ')` */
  function PlusToSpace(s: string): (r: string)
    ensures |r| == |s|
    ensures forall k :: 0 <= k < |s| ==> r[k] == if s[k] == '+' then ' ' else s[k]
  {
    if s == [] then "" else [if s[0] == '+' then ' ' else s[0]] + PlusToSpace(s[1..])
  }

  /**
   `getParameterByName(name, url)`, without the final `decodeURIComponent`.
   The value never holds `&` or `#` (where it stops) nor `+` (turned into a space).
   */
  function GetParameterByName(name: string, url: string): (r: string)
    ensures forall k :: 0 <= k < |r| ==> r[k] != '&' && r[k] != '#' && r[k] != '+'
  {
    match FirstParamFrom(url, name, 0)
    case None => ""
    case Some(i) =>
      match ValueGroup(url, name, i)
      case None => ""
      case Some(value) => if value == "" then "" else PlusToSpace(value)
  }

  /** The parameter does not occur: the result is empty. */
  lemma Absent(name: string, url: string)
    requires forall i :: 0 <= i < |url| ==> !ParamAt(url, name, i)
    ensures GetParameterByName(name, url) == ""
  {
  }

  /**
   The first occurrence decides: without `=value` the result is empty (even
   when a later occurrence has a value); with one it is that value up to
   `&` or `#`, every `+` a space.
   */
  lemma FirstOccurrenceDecides(name: string, url: string, i: nat)
    requires ParamAt(url, name, i)
    requires forall j :: 0 <= j < i ==> !ParamAt(url, name, j)
    ensures ValueGroup(url, name, i).None? ==> GetParameterByName(name, url) == ""
    ensures ValueGroup(url, name, i).Some? ==>
              GetParameterByName(name, url) == PlusToSpace(ValueGroup(url, name, i).value)
  {
    var first := FirstParamFrom(url, name, 0);
    assert first.Some?;
    assert first.value == i;
  }

  /** Where `?name=` was written the pattern matches, and what follows `=` is the rest. */
  lemma WrittenName(base: string, name: string, after: string)
    ensures var url := base + "?" + name + "=" + after;
            && ParamAt(url, name, |base|)
            && NameEnd(name, |base|) < |url| && url[NameEnd(name, |base|)] == '='
            && url[NameEnd(name, |base|) + 1..] == after
  {
    var rest := name + "=" + after;
    var url := base + "?" + rest;
    assert url == base + "?" + name + "=" + after;
    var i := |base|;
    assert url[i] == '?';
    assert url[i + 1..] == rest;
    assert rest[..|name|] == name;
    assert rest[|name|] == '=';
    assert url[NameEnd(name, i) + 1..] == rest[|name| + 1..] == after;
  }

  /** The pattern matches where `?name=value` was written, and captures `value`. */
  lemma WrittenParam(base: string, name: string, value: string, tail: string)
    requires forall k :: 0 <= k < |value| ==> value[k] != '&' && value[k] != '#'
    requires tail == [] || tail[0] == '&' || tail[0] == '#'
    ensures var url := base + "?" + name + "=" + value + tail;
            ParamAt(url, name, |base|) && ValueGroup(url, name, |base|) == Some(value)
  {
    var after := value + tail;
    WrittenName(base, name, after);
    assert base + "?" + name + "=" + value + tail == base + "?" + name + "=" + after;
    var stops := {'&', '#'};
    assert forall k :: 0 <= k < |value| ==> value[k] !in stops;
    TakeUntilStops(value, tail, stops);
  }

  /** `PlusToSpace` leaves text without `+` unchanged. */
  lemma PlusFree(value: string)
    requires forall k :: 0 <= k < |value| ==> value[k] != '+'
    ensures PlusToSpace(value) == value
  {
  }

  /**
   Reading back a parameter written as `?name=value` after a prefix with no
   `?` or `&` gives the value, provided the value holds no `&`, `#` or `+`
   and what follows starts a new parameter or fragment.
   */
  lemma WriteThenRead(base: string, name: string, value: string, tail: string)
    requires forall k :: 0 <= k < |base| ==> base[k] != '?' && base[k] != '&'
    requires forall k :: 0 <= k < |value| ==> value[k] != '&' && value[k] != '#' && value[k] != '+'
    requires tail == [] || tail[0] == '&' || tail[0] == '#'
    ensures GetParameterByName(name, base + "?" + name + "=" + value + tail) == value
  {
    var url := base + "?" + name + "=" + value + tail;
    WrittenParam(base, name, value, tail);
    forall j | 0 <= j < |base| ensures !ParamAt(url, name, j) {
      assert url[j] == base[j];
    }
    FirstOccurrenceDecides(name, url, |base|);
    PlusFree(value);
  }

  /** `?itag&itag=5`: the first occurrence has no value, so the result is empty. */
  lemma FirstWithoutValueExample()
    ensures GetParameterByName("itag", "?itag&itag=5") == ""
  {
    var url := "?itag&itag=5";
    assert url[1..][..4] == "itag";
    assert ParamAt(url, "itag", 0);
    FirstOccurrenceDecides("itag", url, 0);
  }
}
