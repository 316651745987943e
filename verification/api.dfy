/** The two pure helpers of the API client: `buildQuery`, which turns a
    parameter object into a query string through a `URLSearchParams`, and
    `getMyRole`, which reads the role claim of the stored JSON Web Token. */
module Api {
  import opened Base

  // ---------------------------------------------------------------------
  // String.prototype.trim

  /** The characters `String.prototype.trim` strips: ECMAScript's WhiteSpace
      (tab, vertical tab, form feed, space, no-break space, the byte order
      mark and every other space separator) and LineTerminator. */
  predicate IsTrimSpace(c: char)
  {
    || c == '\U{0009}' || c == '\U{000B}' || c == '\U{000C}' || c == '\U{0020}'
    || c == '\U{00A0}' || c == '\U{FEFF}'
    || c == '\U{000A}' || c == '\U{000D}' || c == '\U{2028}' || c == '\U{2029}'
    || c == '\U{1680}' || ('\U{2000}' <= c <= '\U{200A}')
    || c == '\U{202F}' || c == '\U{205F}' || c == '\U{3000}'
  }

  function TrimStart(s: string): (r: string)
    ensures |r| <= |s| && r == s[|s| - |r|..]
    ensures forall i :: 0 <= i < |s| - |r| ==> IsTrimSpace(s[i])
    ensures |r| > 0 ==> !IsTrimSpace(r[0])
    decreases |s|
  {
    if |s| > 0 && IsTrimSpace(s[0]) then TrimStart(s[1..]) else s
  }

  function TrimEnd(s: string): (r: string)
    ensures |r| <= |s| && r == s[..|r|]
    ensures forall i :: |r| <= i < |s| ==> IsTrimSpace(s[i])
    ensures |r| > 0 ==> !IsTrimSpace(r[|r| - 1])
    decreases |s|
  {
    if |s| > 0 && IsTrimSpace(s[|s| - 1]) then TrimEnd(s[..|s| - 1]) else s
  }

  /** How many white-space characters `s` starts with. */
  function Lead(s: string): nat
  {
    |s| - |TrimStart(s)|
  }

  /** `s.trim()`: the longest middle part of `s` that neither starts nor
      ends with white space. */
  function Trim(s: string): (r: string)
    ensures Lead(s) + |r| <= |s| && r == s[Lead(s)..Lead(s) + |r|]
    ensures forall k :: 0 <= k < Lead(s) ==> IsTrimSpace(s[k])
    ensures forall k :: Lead(s) + |r| <= k < |s| ==> IsTrimSpace(s[k])
    ensures |r| > 0 ==> !IsTrimSpace(r[0]) && !IsTrimSpace(r[|r| - 1])
  {
    TrimEnd(TrimStart(s))
  }

  /** Trimming empties a string exactly when it is all white space. */
  lemma {:induction false} TrimEmpty(s: string)
    ensures Trim(s) == "" <==> forall k :: 0 <= k < |s| ==> IsTrimSpace(s[k])
  {
    var r := Trim(s);
    if |r| > 0 {
      assert r[0] == s[Lead(s)];
    }
  }

  /** Trimming a trimmed string changes nothing. */
  lemma TrimIdempotent(s: string)
    ensures Trim(Trim(s)) == Trim(s)
  {
  }

  // ---------------------------------------------------------------------
  // URLSearchParams

  /** One name-value pair of a `URLSearchParams` list. */
  datatype Pair = Pair(key: string, value: string)

  /** The pairs without those named `k`, in order. */
  function WithoutKey(l: seq<Pair>, k: string): (r: seq<Pair>)
    ensures forall x :: x in r <==> x in l && x.key != k
    decreases |l|
  {
    if |l| == 0 then []
    else (if l[0].key == k then [] else [l[0]]) + WithoutKey(l[1..], k)
  }

  predicate HasKey(l: seq<Pair>, k: string)
  {
    exists i :: 0 <= i < |l| && l[i].key == k
  }

  /** `params.get(k)`: the value of the first pair named `k`. */
  function Lookup(l: seq<Pair>, k: string): (r: Option<string>)
    ensures r.None? <==> !HasKey(l, k)
    ensures r.Some? ==> Pair(k, r.value) in l
    decreases |l|
  {
    if |l| == 0 then None
    else if l[0].key == k then Some(l[0].value)
    else
      var r := Lookup(l[1..], k);
      assert forall i :: 1 <= i < |l| ==> l[1..][i - 1] == l[i];
      r
  }

  /** The first pair named `k` gets value `v`, the other pairs named `k` go. */
  function SetFirst(l: seq<Pair>, k: string, v: string): (r: seq<Pair>)
    requires HasKey(l, k)
    ensures forall x :: x in r ==> x in l || x == Pair(k, v)
    decreases |l|
  {
    if l[0].key == k then [Pair(k, v)] + WithoutKey(l[1..], k)
    else
      assert HasKey(l[1..], k) by {
        var i :| 0 <= i < |l| && l[i].key == k;
        assert l[1..][i - 1] == l[i];
      }
      [l[0]] + SetFirst(l[1..], k, v)
  }

  /** `usp.set(k, v)` (section 6.2 of the WHATWG URL Standard): when a pair
      named `k` exists, the first one takes the value `v` and the others are
      removed; otherwise the pair is appended. */
  function SetParam(l: seq<Pair>, k: string, v: string): (r: seq<Pair>)
    ensures forall x :: x in r ==> x in l || x == Pair(k, v)
  {
    if HasKey(l, k) then SetFirst(l, k, v) else l + [Pair(k, v)]
  }

  lemma {:induction false} LookupWithoutKey(l: seq<Pair>, k: string, k2: string)
    requires k2 != k
    ensures Lookup(WithoutKey(l, k), k2) == Lookup(l, k2)
    decreases |l|
  {
    if |l| > 0 {
      LookupWithoutKey(l[1..], k, k2);
      var rest := WithoutKey(l[1..], k);
      if l[0].key != k {
        assert WithoutKey(l, k) == [l[0]] + rest;
        assert ([l[0]] + rest)[1..] == rest;
      } else {
        assert WithoutKey(l, k) == rest;
      }
    }
  }

  lemma {:induction false} LookupSetFirst(l: seq<Pair>, k: string, v: string, k2: string)
    requires HasKey(l, k)
    ensures Lookup(SetFirst(l, k, v), k2) == if k2 == k then Some(v) else Lookup(l, k2)
    decreases |l|
  {
    var r := SetFirst(l, k, v);
    if l[0].key == k {
      assert r[0] == Pair(k, v);
      if k2 != k {
        assert r[1..] == WithoutKey(l[1..], k);
        LookupWithoutKey(l[1..], k, k2);
      }
    } else {
      assert r[0] == l[0] && r[1..] == SetFirst(l[1..], k, v);
      LookupSetFirst(l[1..], k, v, k2);
    }
  }

  lemma {:induction false} LookupAppend(l: seq<Pair>, x: Pair, k2: string)
    ensures Lookup(l + [x], k2) == if HasKey(l, k2) then Lookup(l, k2) else if x.key == k2 then Some(x.value) else None
    decreases |l|
  {
    if |l| > 0 {
      assert (l + [x])[1..] == l[1..] + [x];
      LookupAppend(l[1..], x, k2);
      assert HasKey(l, k2) <==> l[0].key == k2 || HasKey(l[1..], k2) by {
        if HasKey(l, k2) && l[0].key != k2 {
          var i :| 0 <= i < |l| && l[i].key == k2;
          assert l[1..][i - 1] == l[i];
        }
      }
    } else {
      assert [] + [x] == [x];
    }
  }

  /** After `set(k, v)`, `get(k)` is `v` and every other name reads as before. */
  lemma {:induction false} LookupSetParam(l: seq<Pair>, k: string, v: string, k2: string)
    ensures Lookup(SetParam(l, k, v), k2) == if k2 == k then Some(v) else Lookup(l, k2)
  {
    if HasKey(l, k) {
      LookupSetFirst(l, k, v, k2);
    } else {
      LookupAppend(l, Pair(k, v), k2);
    }
  }

  /** No two pairs share a name. */
  predicate UniqueKeys(l: seq<Pair>)
  {
    forall i, j :: 0 <= i < j < |l| ==> l[i].key != l[j].key
  }

  lemma {:induction false} WithoutKeyUnique(l: seq<Pair>, k: string)
    requires UniqueKeys(l)
    ensures UniqueKeys(WithoutKey(l, k)) && !HasKey(WithoutKey(l, k), k)
    decreases |l|
  {
    if |l| > 0 {
      WithoutKeyUnique(l[1..], k);
      var rest := WithoutKey(l[1..], k);
      if l[0].key != k {
        forall j | 0 <= j < |rest| ensures rest[j].key != l[0].key {
          assert rest[j] in l[1..];
        }
      }
    }
  }

  lemma {:induction false} SetFirstUnique(l: seq<Pair>, k: string, v: string)
    requires UniqueKeys(l) && HasKey(l, k)
    ensures UniqueKeys(SetFirst(l, k, v))
    ensures forall x :: x in SetFirst(l, k, v) ==> x.key == k || x in l
    decreases |l|
  {
    var r := SetFirst(l, k, v);
    if l[0].key == k {
      WithoutKeyUnique(l[1..], k);
      var rest := WithoutKey(l[1..], k);
      forall j | 0 <= j < |rest| ensures rest[j].key != k {
        assert rest[j] in rest;
      }
      assert r == [Pair(k, v)] + rest;
    } else {
      SetFirstUnique(l[1..], k, v);
      var rest := SetFirst(l[1..], k, v);
      assert r == [l[0]] + rest;
      forall j | 0 <= j < |rest| ensures rest[j].key != l[0].key {
        assert rest[j] in rest;
        if rest[j].key != k {
          assert rest[j] in l[1..];
        }
      }
    }
  }

  /** `set` keeps names unique. */
  lemma {:induction false} SetParamUnique(l: seq<Pair>, k: string, v: string)
    requires UniqueKeys(l)
    ensures UniqueKeys(SetParam(l, k, v))
  {
    if HasKey(l, k) {
      SetFirstUnique(l, k, v);
    }
  }

  // ---------------------------------------------------------------------
  // buildQuery

  /** One entry of the parameter object, in `Object.entries` order; `None`
      stands for `undefined` and `null`, `Some(s)` for a value whose `String`
      form is `s`. */
  datatype Param = Param(key: string, value: Option<string>)

  /** One step of the `forEach`: a missing value, or one that is empty once
      trimmed, is skipped; otherwise the trimmed value is `set`. */
  function AddParam(usp: seq<Pair>, p: Param): seq<Pair>
  {
    if p.value.None? then usp
    else
      var s := Trim(p.value.value);
      if s == "" then usp else SetParam(usp, p.key, s)
  }

  /** The `URLSearchParams` list after the `forEach` over `params`. */
  function Surviving(params: seq<Param>): (r: seq<Pair>)
    ensures forall x :: x in r ==> x.value != "" && Trim(x.value) == x.value
    decreases |params|
  {
    if |params| == 0 then []
    else
      var prev := Surviving(params[..|params| - 1]);
      var r := AddParam(prev, params[|params| - 1]);
      assert forall x :: x in r ==> x in prev || (x.key == params[|params| - 1].key && x.value == Trim(params[|params| - 1].value.value));
      r
  }

  /** The value the last entry named `k` that survives the filters gives. */
  function LastValue(params: seq<Param>, k: string): Option<string>
    decreases |params|
  {
    if |params| == 0 then None
    else
      var p := params[|params| - 1];
      if p.key == k && p.value.Some? && Trim(p.value.value) != "" then Some(Trim(p.value.value))
      else LastValue(params[..|params| - 1], k)
  }

  /** Each name of the query carries the trimmed value of the LAST entry
      with that name whose value is present and not blank, and names with no
      such entry are absent. */
  lemma {:induction false} SurvivingLookup(params: seq<Param>, k: string)
    ensures Lookup(Surviving(params), k) == LastValue(params, k)
    decreases |params|
  {
    if |params| > 0 {
      var prefix := params[..|params| - 1];
      var p := params[|params| - 1];
      SurvivingLookup(prefix, k);
      if p.value.Some? && Trim(p.value.value) != "" {
        LookupSetParam(Surviving(prefix), p.key, Trim(p.value.value), k);
      }
    }
  }

  /** Each name appears at most once, because the list is built with `set`. */
  lemma {:induction false} SurvivingUnique(params: seq<Param>)
    ensures UniqueKeys(Surviving(params))
    decreases |params|
  {
    if |params| > 0 {
      var prefix := params[..|params| - 1];
      var p := params[|params| - 1];
      SurvivingUnique(prefix);
      if p.value.Some? && Trim(p.value.value) != "" {
        SetParamUnique(Surviving(prefix), p.key, Trim(p.value.value));
      }
    }
  }

  /** `usp.toString()`: the pairs as `name=value`, joined with `&`. */
  function Serialize(l: seq<Pair>): (r: string)
    ensures r == "" <==> |l| == 0
    decreases |l|
  {
    if |l| == 0 then ""
    else
      var head := l[0].key + "=" + l[0].value;
      assert head[|l[0].key|] == '=';
      if |l| == 1 then head else head + "&" + Serialize(l[1..])
  }

  /** `buildQuery(params)`: the loop over the entries, then `?` and the
      serialized pairs, or the empty string when no entry survived. */
  method BuildQuery(params: seq<Param>) returns (q: string)
    ensures |Surviving(params)| == 0 ==> q == ""
    ensures |Surviving(params)| > 0 ==> q == "?" + Serialize(Surviving(params))
  {
    var usp: seq<Pair> := [];
    for i := 0 to |params|
      invariant usp == Surviving(params[..i])
    {
      assert params[..i + 1][..i] == params[..i];
      var p := params[i];
      if p.value.None? {
        continue;
      }
      var s := Trim(p.value.value);
      if s == "" {
        continue;
      }
      usp := SetParam(usp, p.key, s);
    }
    assert params[..|params|] == params;
    var text := Serialize(usp);
    q := if text != "" then "?" + text else "";
  }

  // ---------------------------------------------------------------------
  // getMyRole

  /** `token.split(sep)`. */
  function Split(s: string, sep: char): (r: seq<string>)
    ensures |r| >= 1
    ensures forall i :: 0 <= i < |r| ==> sep !in r[i]
    decreases |s|
  {
    if |s| == 0 then [""]
    else
      var rest := Split(s[1..], sep);
      if s[0] == sep then [""] + rest
      else [[s[0]] + rest[0]] + rest[1..]
  }

  /** The parts joined back with the separator. */
  function Join(parts: seq<string>, sep: char): string
    requires |parts| >= 1
    decreases |parts|
  {
    if |parts| == 1 then parts[0] else parts[0] + [sep] + Join(parts[1..], sep)
  }

  function Count(s: string, c: char): nat
    decreases |s|
  {
    if |s| == 0 then 0 else (if s[0] == c then 1 else 0) + Count(s[1..], c)
  }

  /** Splitting loses nothing: joining the parts gives the token back, and
      there is one more part than there are separators. */
  lemma {:induction false} SplitJoin(s: string, sep: char)
    ensures Join(Split(s, sep), sep) == s
    ensures |Split(s, sep)| == Count(s, sep) + 1
    decreases |s|
  {
    if |s| > 0 {
      SplitJoin(s[1..], sep);
      var rest := Split(s[1..], sep);
      if s[0] == sep {
        assert Split(s, sep) == [""] + rest;
        assert ([""] + rest)[1..] == rest;
        assert s == [sep] + s[1..];
      } else {
        var r := Split(s, sep);
        assert r == [[s[0]] + rest[0]] + rest[1..];
        if |rest| == 1 {
          assert s == [s[0]] + rest[0];
        } else {
          assert r[1..] == rest[1..];
          assert Join(rest, sep) == rest[0] + [sep] + Join(rest[1..], sep);
          assert s == [s[0]] + s[1..];
        }
      }
    }
  }

  /** The decoded token payload; only the `role` claim is read. */
  datatype Payload = Payload(role: Option<string>)

  /** The base64url alphabet mapped back to base64: `-` to `+`, `_` to `/`. */
  function FromBase64Url(s: string): (r: string)
    ensures |r| == |s|
    ensures forall i :: 0 <= i < |s| ==> r[i] == (if s[i] == '-' then '+' else if s[i] == '_' then '/' else s[i])
  {
    seq(|s|, i requires 0 <= i < |s| => if s[i] == '-' then '+' else if s[i] == '_' then '/' else s[i])
  }

  /** `getJwtPayload()`: no payload without a token or when the token does
      not have exactly three dot-separated parts; otherwise the decoding of
      the middle part. `decode` stands for `atob` followed by `JSON.parse`,
      `None` when either throws. */
  function JwtPayload(token: Option<string>, decode: string -> Option<Payload>): (r: Option<Payload>)
    ensures token.None? || token.value == "" ==> r.None?
    ensures token.Some? && |Split(token.value, '.')| != 3 ==> r.None?
    ensures token.Some? && token.value != "" && |Split(token.value, '.')| == 3 ==>
      r == decode(FromBase64Url(Split(token.value, '.')[1]))
  {
    if token.None? || token.value == "" then None
    else
      var parts := Split(token.value, '.');
      if |parts| != 3 then None else decode(FromBase64Url(parts[1]))
  }

  function UpperChar(c: char): char
  {
    if 'a' <= c <= 'z' then (c as int - 32) as char else c
  }

  /** `toUpperCase()` on ASCII letters. */
  function ToUpper(s: string): (r: string)
    ensures |r| == |s|
    ensures forall i :: 0 <= i < |s| ==> r[i] == UpperChar(s[i])
  {
    seq(|s|, i requires 0 <= i < |s| => UpperChar(s[i]))
  }

  /** `getMyRole()`: the role claim upper-cased, or "USER" when there is no
      payload or no (non-empty) role claim. */
  function MyRole(token: Option<string>, decode: string -> Option<Payload>): (r: string)
    ensures var p := JwtPayload(token, decode);
      if p.Some? && p.value.role.Some? && p.value.role.value != "" then r == ToUpper(p.value.role.value)
      else r == "USER"
    ensures forall i :: 0 <= i < |r| ==> !('a' <= r[i] <= 'z')
  {
    var p := JwtPayload(token, decode);
    ToUpper(OrString(if p.Some? then p.value.role else None, "USER"))
  }

  /** Without a well-formed token the role is "USER", whatever the decoder does. */
  lemma NoTokenIsUser(token: Option<string>, decode: string -> Option<Payload>)
    requires token.None? || Count(token.value, '.') != 2
    ensures MyRole(token, decode) == "USER"
  {
    if token.Some? {
      SplitJoin(token.value, '.');
    }
  }

  /** The role is already upper case: upper-casing it again changes nothing. */
  lemma RoleIsUpper(token: Option<string>, decode: string -> Option<Payload>)
    ensures ToUpper(MyRole(token, decode)) == MyRole(token, decode)
  {
  }
}
