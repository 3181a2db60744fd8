/** What the sanitiser shows of a value, place by place. */
module SanitizerContents {
  import opened LineText
  import opened Sanitizer
  import opened Text
  import opened Wire

  // --- which keys are secret -------------------------------------------------------------

  /** In lower case the key holds one of the words that mark a secret. */
  predicate Secretive(k: string)
  {
    exists w, i :: w in SECRET_WORDS && 0 <= i && i + |w| <= |Lower(k)| && WordAt(Lower(k), w, i)
  }

  predicate WordAt(s: string, w: string, i: int)
  {
    0 <= i && i + |w| <= |s| && forall j :: 0 <= j < |w| ==> s[i + j] == w[j]
  }

  /** The words, in the order of the alphabet. */
  const SECRET_WORDS: set<string> := {
    "api-key", "api_key", "apikey", "authorization", "bearer", "cookie", "credential", "licence_key", "license_key",
    "passphrase", "passwd", "password", "private", "secret", "session", "signature", "token"}

  lemma WordsAreMarkers(w: string)
    ensures w in SECRET_WORDS <==> w in MARKERS
  {
    if w in SECRET_WORDS {
      WordIsMarker(w);
    }
  }

  lemma WordIsMarker(w: string)
    requires w in SECRET_WORDS
    ensures w in MARKERS
  {
    assert MARKERS[0] == "password" && MARKERS[1] == "passwd" && MARKERS[2] == "passphrase" && MARKERS[3] == "secret" && MARKERS[4] == "token";
    assert MARKERS[5] == "apikey" && MARKERS[6] == "api_key" && MARKERS[7] == "api-key" && MARKERS[8] == "private" && MARKERS[9] == "credential";
    assert MARKERS[10] == "cookie" && MARKERS[11] == "session" && MARKERS[12] == "authorization" && MARKERS[13] == "bearer";
    assert MARKERS[14] == "license_key" && MARKERS[15] == "licence_key" && MARKERS[16] == "signature";
  }

  lemma PartIsWord(s: string, w: string, i: int)
    ensures PartAt(s, w, i) <==> WordAt(s, w, i)
  {
    if WordAt(s, w, i) {
      assert s[i..i + |w|] == w;
    }
    if PartAt(s, w, i) {
      forall j | 0 <= j < |w| ensures s[i + j] == w[j] {
        assert s[i..i + |w|][j] == s[i + j];
      }
    }
  }

  lemma SecretIff(k: string)
    ensures IsSecret(k) <==> Secretive(k)
  {
    hide PartAt, WordAt;
    if IsSecret(k) {
      var w :| w in MARKERS && Contains(Lower(k), w);
      var i :| 0 <= i <= |Lower(k)| && PartAt(Lower(k), w, i);
      WordsAreMarkers(w);
      PartIsWord(Lower(k), w, i);
      WordFits(Lower(k), w, i);
    }
    if Secretive(k) {
      var w, i :| w in SECRET_WORDS && 0 <= i && i + |w| <= |Lower(k)| && WordAt(Lower(k), w, i);
      WordsAreMarkers(w);
      PartIsWord(Lower(k), w, i);
      assert Contains(Lower(k), w);
    }
  }

  lemma WordFits(s: string, w: string, i: int)
    requires WordAt(s, w, i)
    ensures 0 <= i && i + |w| <= |s|
  {
  }

  // --- places in a value -------------------------------------------------------------------

  /** One step down: to a member of a map, or to an item of a list. */
  datatype Place = Member(key: string) | Item(index: nat)

  /** A value of any other type stands for what its JSON form reads back as. */
  function Plain(v: Value): (r: Value)
    ensures r.Foreign? ==> r.json.None?
  {
    match v
    case Foreign(Some(j)) => Plain(j)
    case _ => v
  }

  /** What is found at a place in w. */
  function Down(w: Value, p: Place): Option<Value>
  {
    match (w, p)
    case (Object(m), Member(k)) => if k in m then Some(m[k]) else None
    case (List(vs), Item(i)) => if i < |vs| then Some(vs[i]) else None
    case (Strings(ss), Item(i)) => if i < |ss| then Some(Text(ss[i])) else None
    case _ => None
  }

  /** What is found at a path into v. */
  function At(v: Value, path: seq<Place>): Option<Value>
    decreases |path|
  {
    if path == [] then Some(Plain(v))
    else
      match Down(Plain(v), path[0])
      case None => None
      case Some(x) => At(x, path[1..])
  }

  /** Of the keys that are not secret, fewer than 24 come before k. */
  ghost predicate Early(ks: set<string>, k: string)
  {
    k in ks && !Secretive(k) && |set j | j in ks && !Secretive(j) && Before(j, k)| < 24
  }

  /**
   * A place is shown when it is an early key of a map less than three levels deep, or one of the
   * first twelve items of a list which, unless it is of strings alone, is less than three levels deep.
   */
  ghost predicate Seen(w: Value, p: Place, depth: nat)
    ensures Seen(w, p, depth) ==> Down(w, p).Some?
  {
    match (w, p)
    case (Object(m), Member(k)) => depth < 3 && Early(m.Keys, k)
    case (List(vs), Item(i)) => depth < 3 && i < 12 && i < |vs|
    case (Strings(ss), Item(i)) => i < 12 && i < |ss|
    case _ => false
  }

  /** A path is shown when every place on it is. */
  ghost predicate IsShown(v: Value, path: seq<Place>, depth: nat)
    decreases |path|
  {
    path == [] || (Seen(Plain(v), path[0], depth) && IsShown(Down(Plain(v), path[0]).value, path[1..], depth + 1))
  }

  /** What is shown of w: at most 400 characters of a text, and a note instead of what is too deep or cannot be read. */
  predicate ShownAs(w: Value, depth: nat, r: Value)
  {
    match w
    case Text(s) => r == Text(if |s| <= 400 then s else s[..400] + ['\U{2026}'])
    case Object(_) => if depth >= 3 then r == Text("[omitted: nested too deep]") else r.Object?
    case List(vs) =>
      if depth >= 3 then r == Text("[omitted: nested too deep]") else r.List? && |r.items| == if |vs| < 12 then |vs| else 12
    case Strings(ss) => r.List? && |r.items| == if |ss| < 12 then |ss| else 12
    case Foreign(_) => r == Text("[omitted: not serialisable]")
    case _ => r == w
  }

  lemma {:induction false} PlainSanitized(v: Value, depth: nat)
    ensures Sanitized(v, depth) == Sanitized(Plain(v), depth)
    decreases v
  {
    if v.Foreign? && v.json.Some? {
      PlainSanitized(v.json.value, depth);
    }
  }

  lemma OutIsPlain(v: Value, depth: nat)
    ensures Plain(Sanitized(v, depth)) == Sanitized(v, depth)
  {
  }

  lemma OutShown(w: Value, depth: nat)
    requires w.Foreign? ==> w.json.None?
    ensures ShownAs(w, depth, Sanitized(w, depth))
  {
  }

  lemma EarlyIsKept(ks: set<string>, k: string)
    ensures Early(ks, k) <==> k in Kept(ks)
  {
    hide Secretive, IsSecret;
    forall j ensures IsSecret(j) <==> Secretive(j) {
      SecretIff(j);
    }
    assert Smaller(Shown(ks), k) == set j | j in ks && !Secretive(j) && Before(j, k);
  }

  lemma MemberDown(m: map<string, Value>, k: string, depth: nat)
    ensures Down(Sanitized(Object(m), depth), Member(k)) ==
            if depth < 3 && Early(m.Keys, k) then Some(Sanitized(m[k], depth + 1)) else None
  {
    EarlyIsKept(m.Keys, k);
    if depth < 3 {
      MembersOf(m, depth);
      hide Sanitized, Kept, Early;
    } else {
      hide Early, Kept;
    }
  }

  lemma ItemDown(vs: seq<Value>, i: nat, depth: nat)
    ensures Down(Sanitized(List(vs), depth), Item(i)) ==
            if depth < 3 && i < 12 && i < |vs| then Some(Sanitized(vs[i], depth + 1)) else None
  {
    if depth < 3 {
      ItemsOf(vs, depth);
      hide Sanitized;
    }
  }

  lemma StringDown(ss: seq<string>, i: nat, depth: nat)
    ensures Down(Sanitized(Strings(ss), depth), Item(i)) ==
            if i < 12 && i < |ss| then Some(Sanitized(Text(ss[i]), depth + 1)) else None
  {
    hide Truncate;
  }

  /** At a place, the copy has the copy of what is there, if the place is shown. */
  lemma CopyDown(w: Value, p: Place, depth: nat)
    requires w.Foreign? ==> w.json.None?
    ensures Down(Sanitized(w, depth), p) == if Seen(w, p, depth) then Some(Sanitized(Down(w, p).value, depth + 1)) else None
  {
    match (w, p)
    case (Object(m), Member(k)) =>
      MemberDown(m, k, depth);
      hide Sanitized, Early;
    case (List(vs), Item(i)) =>
      ItemDown(vs, i, depth);
      hide Sanitized;
    case (Strings(ss), Item(i)) =>
      StringDown(ss, i, depth);
      hide Sanitized;
    case _ =>
      hide Truncate, Kept, Early;
  }

  /** At every path, the copy has something exactly when the path is shown, and then what is shown of it. */
  lemma {:induction false} CopyShows(v: Value, path: seq<Place>, depth: nat)
    ensures At(Sanitized(v, depth), path).Some? <==> IsShown(v, path, depth)
    ensures IsShown(v, path, depth) ==>
              At(v, path).Some? && ShownAs(At(v, path).value, depth + |path|, At(Sanitized(v, depth), path).value)
    decreases |path|
  {
    hide Sanitized, Down, Seen, ShownAs, Plain;
    var w := Plain(v);
    PlainSanitized(v, depth);
    OutIsPlain(v, depth);
    if path == [] {
      OutShown(w, depth);
    } else {
      CopyDown(w, path[0], depth);
      if Seen(w, path[0], depth) {
        CopyShows(Down(w, path[0]).value, path[1..], depth + 1);
      }
    }
  }

  /** So of every path into the evidence of a finding: what the copy that may be forwarded shows there. */
  lemma EvidenceShows(m: map<string, Value>, path: seq<Place>)
    ensures At(Object(Evidence(m)), path).Some? <==> IsShown(Object(m), path, 0)
    ensures IsShown(Object(m), path, 0) ==>
              At(Object(m), path).Some? && ShownAs(At(Object(m), path).value, |path|, At(Object(Evidence(m)), path).value)
  {
    hide *;
    EvidenceIsSanitized(m);
    CopyShows(Object(m), path, 0);
  }
}
