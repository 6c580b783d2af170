/** Container names and labels. */
module Labels {
  import opened Text

  const MANAGED: string := "orbit.managed"
  const STACK: string := "orbit.stack"
  const KIND: string := "orbit.kind"
  const WORKLOAD: string := "orbit.workload"
  const HASH: string := "orbit.configHash"

  type LabelMap = map<string, string>

  // ---- Names ----

  /** Characters a container name may hold, by the pattern `[a-zA-Z0-9_.-]`. */
  predicate NameChar(c: char) {
    'a' <= c <= 'z' || 'A' <= c <= 'Z' || '0' <= c <= '9' || Separator(c)
  }

  predicate Separator(c: char) {
    c == '-' || c == '_' || c == '.'
  }

  /** Replaces every maximal run of other characters by one hyphen; `inRun` says the character
      before belonged to such a run. */
  function ReplaceInvalid(s: string, inRun: bool): string {
    if s == "" then ""
    else if NameChar(s[0]) then [s[0]] + ReplaceInvalid(s[1..], false)
    else (if inRun then "" else "-") + ReplaceInvalid(s[1..], true)
  }

  function TrimSeparators(s: string): string {
    TrimRight(TrimLeft(s, Separator), Separator)
  }

  function NormalizeContainerName(name: string): string {
    var t := TrimSeparators(ReplaceInvalid(TrimSpace(Lower(name)), false));
    if t == "" then "orbit-workload" else t
  }

  function BuildContainerName(stackName: string, workloadName: string): string {
    NormalizeContainerName(stackName) + "-" + NormalizeContainerName(workloadName)
  }

  predicate LowerNameChar(c: char) {
    'a' <= c <= 'z' || '0' <= c <= '9' || Separator(c)
  }

  /** The normal form: lower-case name characters with no separator at either end. */
  predicate Normal(s: string) {
    && s != "" && (forall c :: c in s ==> LowerNameChar(c))
    && !Separator(s[0]) && !Separator(s[|s| - 1])
  }

  predicate IsUpper(c: char) {
    'A' <= c <= 'Z'
  }

  lemma {:induction false} ReplaceKeepsLower(s: string, inRun: bool)
    requires forall c :: c in s ==> !IsUpper(c)
    ensures forall c :: c in ReplaceInvalid(s, inRun) ==> LowerNameChar(c)
  {
    if s == "" {
    } else {
      assert !IsUpper(s[0]);
      ReplaceKeepsLower(s[1..], if NameChar(s[0]) then false else true);
    }
  }

  lemma {:induction false} ReplaceKeepsNames(s: string, inRun: bool)
    requires forall c :: c in s ==> NameChar(c)
    ensures ReplaceInvalid(s, inRun) == s
  {
    if s == "" {
    } else {
      ReplaceKeepsNames(s[1..], false);
    }
  }

  /** Every normalised name is in normal form. */
  lemma NormalizeIsNormal(name: string)
    ensures Normal(NormalizeContainerName(name))
  {
    var spaced := TrimSpace(Lower(name));
    TrimLeftIsSuffix(Lower(name), IsSpace);
    TrimRightIsPrefix(TrimLeft(Lower(name), IsSpace), IsSpace);
    var replaced := ReplaceInvalid(spaced, false);
    ReplaceKeepsLower(spaced, false);
    TrimLeftIsSuffix(replaced, Separator);
    TrimRightIsPrefix(TrimLeft(replaced, Separator), Separator);
  }

  /** Normal names are exactly the fixed points, so normalising twice changes nothing more. */
  lemma NormalIsFixedPoint(name: string)
    ensures NormalizeContainerName(name) == name <==> Normal(name)
  {
    NormalizeIsNormal(name);
    if Normal(name) {
      assert forall i :: 0 <= i < |name| ==> LowerNameChar(name[i]);
      assert Lower(name) == name;
      assert forall c :: c in name ==> NameChar(c) && !IsSpace(c);
      ReplaceKeepsNames(name, false);
    }
  }

  lemma NormalizeIsIdempotent(name: string)
    ensures NormalizeContainerName(NormalizeContainerName(name)) == NormalizeContainerName(name)
  {
    NormalizeIsNormal(name);
    NormalIsFixedPoint(NormalizeContainerName(name));
  }

  // ---- What normalising makes of a name, word by word ----

  /** Words of name characters with gaps of other characters between them. */
  function Interleave(words: seq<string>, gaps: seq<string>): string
    requires |words| == |gaps| + 1
  {
    if gaps == [] then words[0] else words[0] + (gaps[0] + Interleave(words[1..], gaps[1..]))
  }

  /** The words in lower case, joined by hyphens. */
  function Hyphenated(words: seq<string>): string
    requires words != []
  {
    if |words| == 1 then Lower(words[0]) else Lower(words[0]) + ("-" + Hyphenated(words[1..]))
  }

  predicate InRunAfter(s: string, inRun: bool) {
    if s == "" then inRun else !NameChar(s[|s| - 1])
  }

  lemma {:induction false} ReplaceAppends(a: string, b: string, inRun: bool)
    ensures ReplaceInvalid(a + b, inRun) == ReplaceInvalid(a, inRun) + ReplaceInvalid(b, InRunAfter(a, inRun))
  {
    if a == "" {
      assert a + b == b;
    } else {
      assert (a + b)[1..] == a[1..] + b;
      ReplaceAppends(a[1..], b, !NameChar(a[0]));
    }
  }

  lemma {:induction false} ReplaceGap(g: string, inRun: bool)
    requires forall c :: c in g ==> !NameChar(c)
    ensures ReplaceInvalid(g, inRun) == if g == "" || inRun then "" else "-"
  {
    if g == "" {
    } else {
      assert g[0] in g;
      ReplaceGap(g[1..], true);
    }
  }

  lemma {:induction false} ReplaceKeepsSeparators(s: string, inRun: bool)
    requires forall c :: c in s ==> !Alphanumeric(c)
    ensures forall c :: c in ReplaceInvalid(s, inRun) ==> Separator(c)
  {
    if s == "" {
    } else {
      assert s[0] in s;
      ReplaceKeepsSeparators(s[1..], !NameChar(s[0]));
    }
  }

  /** After a run the next name character starts afresh. */
  lemma RunEnds(s: string, inRun: bool)
    requires s != "" && NameChar(s[0])
    ensures ReplaceInvalid(s, inRun) == ReplaceInvalid(s, false)
  {
  }

  predicate NameWord(w: string) {
    w != "" && forall c :: c in w ==> NameChar(c)
  }

  predicate Gap(g: string) {
    g != "" && forall c :: c in g ==> !NameChar(c)
  }

  predicate WordsAndGaps(words: seq<string>, gaps: seq<string>) {
    && |words| == |gaps| + 1
    && (forall i :: 0 <= i < |words| ==> NameWord(words[i]))
    && (forall i :: 0 <= i < |gaps| ==> Gap(gaps[i]))
  }

  lemma LowerOfNames(w: string)
    ensures (forall c :: c in w ==> NameChar(c)) ==> forall c :: c in Lower(w) ==> NameChar(c)
    ensures (forall c :: c in w ==> !NameChar(c)) ==> Lower(w) == w
    ensures (forall c :: c in w ==> !Alphanumeric(c)) ==> Lower(w) == w
    ensures w != "" ==> (Alphanumeric(w[0]) ==> Alphanumeric(Lower(w)[0]))
    ensures w != "" ==> (Alphanumeric(w[|w| - 1]) ==> Alphanumeric(Lower(w)[|w| - 1]))
  {
    assert forall i :: 0 <= i < |w| ==> w[i] in w;
  }

  /** One word, one gap, and the rest. */
  lemma ReplaceOneGap(w: string, g: string, rest: string)
    requires NameWord(w) && Gap(g) && rest != "" && NameChar(Lower(rest)[0])
    ensures ReplaceInvalid(Lower(w + (g + rest)), false)
      == Lower(w) + ("-" + ReplaceInvalid(Lower(rest), false))
  {
    hide ReplaceInvalid, Lower;
    LowerOfNames(w);
    LowerOfNames(g);
    LowerAppends(w, g + rest);
    LowerAppends(g, rest);
    var lw, lr := Lower(w), Lower(rest);
    assert lw[|lw| - 1] in lw && g[|g| - 1] in g;
    ReplaceKeepsNames(lw, false);
    ReplaceAppends(lw, g + lr, false);
    ReplaceAppends(g, lr, false);
    ReplaceGap(g, false);
    RunEnds(lr, true);
  }

  lemma {:induction false} InterleavedEnds(words: seq<string>, gaps: seq<string>)
    requires WordsAndGaps(words, gaps)
    ensures var all, last := Interleave(words, gaps), words[|words| - 1];
      all != "" && words[0] != "" && last != "" && all[0] == words[0][0] && all[|all| - 1] == last[|last| - 1]
  {
    assert NameWord(words[0]);
    if gaps == [] {
    } else {
      InterleavedEnds(words[1..], gaps[1..]);
    }
  }

  lemma {:induction false} ReplaceInterleaved(words: seq<string>, gaps: seq<string>)
    requires WordsAndGaps(words, gaps)
    ensures ReplaceInvalid(Lower(Interleave(words, gaps)), false) == Hyphenated(words)
  {
    hide ReplaceInvalid, Lower, NameWord, Gap;
    if gaps == [] {
      assert NameWord(words[0]);
      OneWord(words[0]);
    } else {
      assert NameWord(words[0]) && Gap(gaps[0]) && NameWord(words[1]);
      ReplaceInterleaved(words[1..], gaps[1..]);
      InterleavedEnds(words[1..], gaps[1..]);
      StartsWithName(words[1], Interleave(words[1..], gaps[1..]));
      ReplaceOneGap(words[0], gaps[0], Interleave(words[1..], gaps[1..]));
    }
  }

  lemma OneWord(w: string)
    requires NameWord(w)
    ensures ReplaceInvalid(Lower(w), false) == Lower(w)
  {
    LowerOfNames(w);
    ReplaceKeepsNames(Lower(w), false);
  }

  lemma StartsWithName(w: string, rest: string)
    requires NameWord(w) && rest != "" && rest[0] == w[0]
    ensures NameChar(Lower(rest)[0])
  {
    assert w[0] in w;
  }

  lemma {:induction false} TrimLeftWithin(pre: string, rest: string, cut: char -> bool) returns (kept: string)
    requires rest != "" && !cut(rest[0])
    ensures TrimLeft(pre + rest, cut) == kept + rest && forall c :: c in kept ==> c in pre
  {
    if pre == "" || !cut(pre[0]) {
      kept := pre;
      assert pre == "" ==> pre + rest == rest;
    } else {
      assert (pre + rest)[1..] == pre[1..] + rest;
      kept := TrimLeftWithin(pre[1..], rest, cut);
    }
  }

  lemma {:induction false} TrimRightWithin(rest: string, post: string, cut: char -> bool) returns (kept: string)
    requires rest != "" && !cut(rest[|rest| - 1])
    ensures TrimRight(rest + post, cut) == rest + kept && forall c :: c in kept ==> c in post
  {
    if post == "" || !cut(post[|post| - 1]) {
      kept := post;
      assert post == "" ==> rest + post == rest;
    } else {
      var n := |post| - 1;
      assert (rest + post)[..|rest + post| - 1] == rest + post[..n];
      kept := TrimRightWithin(rest, post[..n], cut);
    }
  }

  /** A name is its words in lower case, each gap of other characters turned into one hyphen, and
      whatever holds no letter or digit dropped at both ends. */
  lemma NormalizeWords(pre: string, words: seq<string>, gaps: seq<string>, post: string)
    requires WordsAndGaps(words, gaps)
    requires (forall c :: c in pre ==> !Alphanumeric(c)) && (forall c :: c in post ==> !Alphanumeric(c))
    requires var last := words[|words| - 1];
      words[0] != "" && last != "" && Alphanumeric(words[0][0]) && Alphanumeric(last[|last| - 1])
    ensures NormalizeContainerName(pre + (Interleave(words, gaps) + post)) == Hyphenated(words)
  {
    hide Interleave, Hyphenated, ReplaceInvalid, TrimLeft, TrimRight, Lower, NameWord, Gap;
    var core := Interleave(words, gaps);
    var low, mid := Lower(core), Hyphenated(words);
    InterleavedEnds(words, gaps);
    ReplaceInterleaved(words, gaps);
    LowerOfNames(core);
    LowerOfNames(pre);
    LowerOfNames(post);
    LowerAppends(pre, core + post);
    LowerAppends(core, post);
    var a, b := TrimmedName(pre, low, post);
    ReplaceAround(a, low, b);
    EndsStay(words, gaps);
    var left, right := ReplaceInvalid(a, false), ReplaceInvalid(b, false);
    TrimAround(left, mid, right);
  }

  lemma TrimmedName(pre: string, low: string, post: string) returns (a: string, b: string)
    requires low != "" && Alphanumeric(low[0]) && Alphanumeric(low[|low| - 1])
    ensures TrimSpace(pre + (low + post)) == a + low + b
    ensures (forall c :: c in a ==> c in pre) && (forall c :: c in b ==> c in post)
  {
    a := TrimLeftWithin(pre, low + post, IsSpace);
    assert a + (low + post) == (a + low) + post;
    b := TrimRightWithin(a + low, post, IsSpace);
  }

  lemma ReplaceAround(a: string, low: string, b: string)
    requires low != "" && Alphanumeric(low[0]) && Alphanumeric(low[|low| - 1])
    requires (forall c :: c in a ==> !Alphanumeric(c)) && (forall c :: c in b ==> !Alphanumeric(c))
    ensures ReplaceInvalid(a + low + b, false)
      == ReplaceInvalid(a, false) + ReplaceInvalid(low, false) + ReplaceInvalid(b, false)
    ensures (forall c :: c in ReplaceInvalid(a, false) ==> Separator(c))
    ensures (forall c :: c in ReplaceInvalid(b, false) ==> Separator(c))
  {
    hide ReplaceInvalid;
    ReplaceAppends(a + low, b, false);
    ReplaceAppends(a, low, false);
    RunEnds(low, InRunAfter(a, false));
    ReplaceKeepsSeparators(a, false);
    ReplaceKeepsSeparators(b, false);
  }

  lemma TrimAround(left: string, mid: string, right: string)
    requires (forall c :: c in left ==> Separator(c)) && (forall c :: c in right ==> Separator(c))
    requires mid != "" && !Separator(mid[0]) && !Separator(mid[|mid| - 1])
    ensures TrimSeparators(left + mid + right) == mid
  {
    assert left + mid + right == left + (mid + right);
    TrimLeftCuts(left, mid + right, Separator);
    TrimRightCuts(mid, right, Separator);
  }

  lemma EndsStay(words: seq<string>, gaps: seq<string>)
    requires WordsAndGaps(words, gaps)
    requires var last := words[|words| - 1];
      words[0] != "" && last != "" && Alphanumeric(words[0][0]) && Alphanumeric(last[|last| - 1])
    ensures var h := Hyphenated(words); h != "" && !Separator(h[0]) && !Separator(h[|h| - 1])
  {
    HyphenatedEnds(words, gaps);
    LowerOfNames(words[0]);
    LowerOfNames(words[|words| - 1]);
  }

  lemma {:induction false} HyphenatedEnds(words: seq<string>, gaps: seq<string>)
    requires WordsAndGaps(words, gaps)
    ensures var h, last := Hyphenated(words), Lower(words[|words| - 1]);
      h != "" && h[0] == Lower(words[0])[0] && last != "" && h[|h| - 1] == last[|last| - 1]
  {
    assert NameWord(words[0]);
    if gaps == [] {
    } else {
      HyphenatedEnds(words[1..], gaps[1..]);
    }
  }

  /** A text without letters or digits gets the fallback name. */
  lemma NoNameLeft(name: string)
    requires forall c :: c in name ==> !Alphanumeric(c)
    ensures NormalizeContainerName(name) == "orbit-workload"
  {
    LowerOfNames(name);
    TrimLeftIsSuffix(name, IsSpace);
    TrimRightIsPrefix(TrimLeft(name, IsSpace), IsSpace);
    var replaced := ReplaceInvalid(TrimSpace(name), false);
    ReplaceKeepsSeparators(TrimSpace(name), false);
    assert replaced + "" == replaced;
    TrimLeftCuts(replaced, "", Separator);
  }

  /** A container is named after its stack and its workload. */
  lemma BuiltFromNormal(stackName: string, workloadName: string)
    requires Normal(stackName) && Normal(workloadName)
    ensures BuildContainerName(stackName, workloadName) == stackName + "-" + workloadName
  {
    NormalIsFixedPoint(stackName);
    NormalIsFixedPoint(workloadName);
  }

  /** A built container name starts and ends with a letter or digit. */
  lemma BuiltNameIsNormal(stackName: string, workloadName: string)
    ensures Normal(BuildContainerName(stackName, workloadName))
  {
    NormalizeIsNormal(stackName);
    NormalizeIsNormal(workloadName);
  }

  // ---- Labels ----

  /** Base labels win over the user's. */
  method MergeLabels(base: LabelMap, extra: LabelMap) returns (out: LabelMap)
    ensures out.Keys == base.Keys + extra.Keys
    ensures forall k :: k in base ==> out[k] == base[k]
    ensures forall k :: k in extra && k !in base ==> out[k] == extra[k]
    ensures out == extra + base
  {
    out := map[];
    out := CopyInto(out, extra);
    out := CopyInto(out, base);
  }

  method CopyInto(into: LabelMap, from: LabelMap) returns (out: LabelMap)
    ensures out == into + from
  {
    out := into;
    var pending := from.Keys;
    while pending != {}
      invariant pending <= from.Keys
      invariant out == into + (map k | k in from && k !in pending :: from[k])
      decreases |pending|
    {
      var k :| k in pending;
      out := out[k := from[k]];
      pending := pending - {k};
    }
    assert (map k | k in from && k !in pending :: from[k]) == from;
  }

  function BaseLabels(stackName: string, kind: string, workloadName: string, configHash: string): LabelMap {
    map[MANAGED := "true", STACK := stackName, KIND := kind, WORKLOAD := workloadName, HASH := configHash]
  }

  function WorkloadLabels(stackName: string, kind: string, workloadName: string, configHash: string,
                          user: LabelMap): LabelMap
  {
    user + BaseLabels(stackName, kind, workloadName, configHash)
  }

  /** Missing keys read as the empty string, as in a Go map. */
  function Label(labels: LabelMap, key: string): string {
    if key in labels then labels[key] else ""
  }

  /** A user label never disguises a workload's identity. */
  lemma WorkloadLabelsIdentify(stackName: string, kind: string, workloadName: string, configHash: string,
                               user: LabelMap)
    ensures var l := WorkloadLabels(stackName, kind, workloadName, configHash, user);
      && Label(l, MANAGED) == "true" && Label(l, STACK) == stackName && Label(l, KIND) == kind
      && Label(l, WORKLOAD) == workloadName && Label(l, HASH) == configHash
  {
    assert MANAGED[6] != STACK[6] && MANAGED[6] != KIND[6] && MANAGED[6] != WORKLOAD[6] && MANAGED[6] != HASH[6];
    assert STACK[6] != KIND[6] && STACK[6] != WORKLOAD[6] && STACK[6] != HASH[6];
    assert KIND[6] != WORKLOAD[6] && KIND[6] != HASH[6] && WORKLOAD[6] != HASH[6];
  }
}
