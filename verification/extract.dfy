/**
 * Ordered first-match extraction rules.  Each adapter inspects a response of unknown
 * shape with a chain `if (a) x = …; else if (b) x = …; …`; here a chain is a list of
 * rules and the first rule that applies decides.
 */
module Extract {
  import opened Js
  import opened Text

  /** What one rule makes of a value: it does not apply (`Skip`), it applies and picks a
      value (`Take`), or it applies and the property access throws a `TypeError`. */
  datatype Decision = Skip | Take(value: JVal) | Throw

  datatype Rule =
    /** `if (v?.a?.b)` picks `v.a.b` */
    | TruthyAt(path: seq<Step>)
    /** `if (v?.a && typeof v.a === 'string')` picks `v.a` */
    | TruthyStringAt(path: seq<Step>)
    /** `if (typeof v === 'string')` picks `v` itself */
    | SelfString
    /** `if (v.a && Array.isArray(v.a))` concatenates the text of its `type === 'text'`
        blocks; this commits the chain even when no block has text */
    | TextBlocksAt(path: seq<Step>)
    /** a non-optional `v.a` on `null`/`undefined` throws; otherwise the chain goes on */
    | NotNullish

  /** `block.type === 'text' && block.text` */
  predicate IsTextBlock(block: JVal) {
    Get(block, Key("type")) == Str("text") && Truthy(Get(block, Key("text")))
  }

  /** The texts the loop `for (const block of blocks) if (…) chunk += block.text` appends,
      in block order. */
  function BlockTexts(blocks: seq<JVal>): (r: seq<string>)
    ensures |r| <= |blocks|
    decreases |blocks|
  {
    if blocks == [] then []
    else
      var last := blocks[|blocks| - 1];
      BlockTexts(blocks[..|blocks| - 1]) + (if IsTextBlock(last) then [ToStr(Get(last, Key("text")))] else [])
  }

  /** The block scan is compositional: the texts of `a + b` are those of `a` then those of `b`. */
  lemma {:induction false} BlockTextsAppend(a: seq<JVal>, b: seq<JVal>)
    ensures BlockTexts(a + b) == BlockTexts(a) + BlockTexts(b)
    decreases |b|
  {
    if b == [] {
      assert a + b == a;
    } else {
      assert (a + b)[..|a + b| - 1] == a + b[..|b| - 1];
      BlockTextsAppend(a, b[..|b| - 1]);
    }
  }

  /** Reading `block.type` throws on a nullish block. */
  predicate HasNullish(blocks: seq<JVal>) {
    exists i :: 0 <= i < |blocks| && Nullish(blocks[i])
  }

  /** The block scan of an array: reading `block.type` throws on a nullish block; otherwise
      the chain is committed to the concatenated text, even when it is empty. */
  function ScanBlocks(blocks: seq<JVal>): Decision {
    if HasNullish(blocks) then Throw else Take(Str(Concat(BlockTexts(blocks))))
  }

  function Apply(rule: Rule, v: JVal): (d: Decision)
    ensures d.Take? ==> Truthy(d.value) || d.value.Str?
  {
    match rule
    case TruthyAt(p) =>
      if Truthy(Walk(v, p)) then Take(Walk(v, p)) else Skip
    case TruthyStringAt(p) =>
      var x := Walk(v, p);
      if Truthy(x) && x.Str? then Take(x) else Skip
    case SelfString =>
      if v.Str? then Take(v) else Skip
    case TextBlocksAt(p) =>
      (match Walk(v, p)
       case Arr(blocks) => ScanBlocks(blocks)
       case _ => Skip)
    case NotNullish =>
      if Nullish(v) then Throw else Skip
  }

  /** Runs a chain: the decision of the first rule that applies, `Skip` when none does. */
  function Decide(rules: seq<Rule>, v: JVal): (d: Decision)
    ensures d.Take? ==> Truthy(d.value) || d.value.Str?
    decreases |rules|
  {
    if rules == [] then Skip
    else if !Apply(rules[0], v).Skip? then Apply(rules[0], v)
    else Decide(rules[1..], v)
  }

  /** The chain's decision is that of the first rule that applies: nothing is decided
      exactly when no rule applies, and a picked value comes from one of the rules. */
  lemma {:induction false} DecideFirstApplicable(rules: seq<Rule>, v: JVal)
    ensures Decide(rules, v).Skip? <==> forall i :: 0 <= i < |rules| ==> Apply(rules[i], v).Skip?
    ensures forall i :: 0 <= i < |rules| && !Apply(rules[i], v).Skip?
                        && (forall j :: 0 <= j < i ==> Apply(rules[j], v).Skip?)
                        ==> Decide(rules, v) == Apply(rules[i], v)
    ensures Decide(rules, v).Take? ==> exists i :: 0 <= i < |rules| && Apply(rules[i], v) == Decide(rules, v)
    decreases |rules|
  {
    if rules != [] {
      DecideFirstApplicable(rules[1..], v);
      var d := Decide(rules, v);
      forall i | 0 <= i < |rules| && !Apply(rules[i], v).Skip? && (forall j :: 0 <= j < i ==> Apply(rules[j], v).Skip?)
        ensures d == Apply(rules[i], v)
      {
        if i > 0 {
          assert Apply(rules[0], v).Skip?;
          assert rules[1..][i - 1] == rules[i];
          forall j | 0 <= j < i - 1 ensures Apply(rules[1..][j], v).Skip? {
            assert rules[1..][j] == rules[j + 1];
          }
        }
      }
      if d.Take? && Apply(rules[0], v).Skip? {
        var k :| 0 <= k < |rules[1..]| && Apply(rules[1..][k], v) == d;
        assert rules[k + 1] == rules[1..][k];
      }
      if d.Skip? {
        forall i | 0 <= i < |rules| ensures Apply(rules[i], v).Skip? {
          if i > 0 { assert rules[i] == rules[1..][i - 1]; }
        }
      }
    }
  }

  /** One step of a chain: the head rule decides when it applies, the rest otherwise. */
  lemma DecideCons(r: Rule, rest: seq<Rule>, v: JVal)
    ensures Decide([r] + rest, v) == if !Apply(r, v).Skip? then Apply(r, v) else Decide(rest, v)
  {
    assert ([r] + rest)[0] == r && ([r] + rest)[1..] == rest;
  }

  /** A chain split in two: the first part decides if any of its rules applies. */
  lemma {:induction false} DecideAppend(a: seq<Rule>, b: seq<Rule>, v: JVal)
    ensures Decide(a + b, v) == if !Decide(a, v).Skip? then Decide(a, v) else Decide(b, v)
    decreases |a|
  {
    if a == [] {
      assert a + b == b;
    } else {
      DecideCons(a[0], a[1..] + b, v);
      DecideCons(a[0], a[1..], v);
      assert a == [a[0]] + a[1..];
      assert a + b == [a[0]] + (a[1..] + b);
      DecideAppend(a[1..], b, v);
    }
  }

  /** A chain of four rules, unrolled. */
  lemma Decide4(r0: Rule, r1: Rule, r2: Rule, r3: Rule, v: JVal)
    ensures Decide([r0, r1, r2, r3], v) ==
      if !Apply(r0, v).Skip? then Apply(r0, v)
      else if !Apply(r1, v).Skip? then Apply(r1, v)
      else if !Apply(r2, v).Skip? then Apply(r2, v)
      else Apply(r3, v)
  {
    DecideCons(r3, [], v);
    DecideCons(r2, [r3], v);
    DecideCons(r1, [r2, r3], v);
    DecideCons(r0, [r1, r2, r3], v);
    assert [r0, r1, r2, r3] == [r0] + [r1, r2, r3];
    assert [r1, r2, r3] == [r1] + [r2, r3];
    assert [r2, r3] == [r2] + [r3];
    assert [r3] == [r3] + [];
  }

  /** A chain of five rules, unrolled. */
  lemma Decide5(r0: Rule, r1: Rule, r2: Rule, r3: Rule, r4: Rule, v: JVal)
    ensures Decide([r0, r1, r2, r3, r4], v) ==
      if !Apply(r0, v).Skip? then Apply(r0, v)
      else if !Apply(r1, v).Skip? then Apply(r1, v)
      else if !Apply(r2, v).Skip? then Apply(r2, v)
      else if !Apply(r3, v).Skip? then Apply(r3, v)
      else Apply(r4, v)
  {
    Decide4(r1, r2, r3, r4, v);
    DecideCons(r0, [r1, r2, r3, r4], v);
    assert [r0, r1, r2, r3, r4] == [r0] + [r1, r2, r3, r4];
  }

  /** A chain of eight rules, unrolled. */
  lemma Decide8(r0: Rule, r1: Rule, r2: Rule, r3: Rule, r4: Rule, r5: Rule, r6: Rule, r7: Rule, v: JVal)
    ensures Decide([r0, r1, r2, r3, r4, r5, r6, r7], v) ==
      if !Apply(r0, v).Skip? then Apply(r0, v)
      else if !Apply(r1, v).Skip? then Apply(r1, v)
      else if !Apply(r2, v).Skip? then Apply(r2, v)
      else if !Apply(r3, v).Skip? then Apply(r3, v)
      else if !Apply(r4, v).Skip? then Apply(r4, v)
      else if !Apply(r5, v).Skip? then Apply(r5, v)
      else if !Apply(r6, v).Skip? then Apply(r6, v)
      else Apply(r7, v)
  {
    Decide4(r0, r1, r2, r3, v);
    Decide4(r4, r5, r6, r7, v);
    DecideAppend([r0, r1, r2, r3], [r4, r5, r6, r7], v);
    assert [r0, r1, r2, r3, r4, r5, r6, r7] == [r0, r1, r2, r3] + [r4, r5, r6, r7];
  }

  /** `if (v?.a?.b)` takes `v.a.b` when it is truthy ... */
  lemma TruthyHit(p: seq<Step>, v: JVal)
    requires Truthy(Walk(v, p))
    ensures Apply(TruthyAt(p), v) == Take(Walk(v, p))
  {
  }

  /** ... and passes the value on otherwise. */
  lemma TruthyMiss(p: seq<Step>, v: JVal)
    requires !Truthy(Walk(v, p))
    ensures Apply(TruthyAt(p), v) == Skip
  {
  }

  /** `if (v.a && typeof v.a === 'string')` takes a non-empty string `v.a` ... */
  lemma StringHit(p: seq<Step>, v: JVal)
    requires Truthy(Walk(v, p)) && Walk(v, p).Str?
    ensures Apply(TruthyStringAt(p), v) == Take(Walk(v, p))
  {
  }

  /** ... and passes anything else on. */
  lemma StringMiss(p: seq<Step>, v: JVal)
    requires !(Truthy(Walk(v, p)) && Walk(v, p).Str?)
    ensures Apply(TruthyStringAt(p), v) == Skip
  {
  }

  /** An array at the path commits the chain to its block scan ... */
  lemma BlocksHit(p: seq<Step>, v: JVal)
    requires Walk(v, p).Arr?
    ensures Apply(TextBlocksAt(p), v) == ScanBlocks(Walk(v, p).items)
  {
  }

  /** ... and anything else passes the value on. */
  lemma BlocksMiss(p: seq<Step>, v: JVal)
    requires !Walk(v, p).Arr?
    ensures Apply(TextBlocksAt(p), v) == Skip
  {
  }

  /** Rule order matters exactly as far as earlier rules apply: a rule that never applies
      to `v` can be dropped from the chain. */
  lemma {:induction false} DecideSkipsInapplicable(pre: seq<Rule>, r: Rule, post: seq<Rule>, v: JVal)
    requires Apply(r, v).Skip?
    ensures Decide(pre + [r] + post, v) == Decide(pre + post, v)
    decreases |pre|
  {
    if pre == [] {
      var rules := pre + [r] + post;
      assert rules == [r] + post && rules[0] == r && rules[1..] == post;
      assert pre + post == post;
    } else {
      assert (pre + [r] + post)[1..] == pre[1..] + [r] + post;
      assert (pre + post)[1..] == pre[1..] + post;
      DecideSkipsInapplicable(pre[1..], r, post, v);
    }
  }

  /** `response && response.error`: the check every buffered adapter makes first. */
  predicate CarriesError(response: JVal) {
    Truthy(response) && Truthy(Walk(response, Error))
  }

  /** A chain's result when nothing applies: the `let chunk = ''` the source starts from. */
  function TakeOr(d: Decision, default: JVal): JVal {
    if d.Take? then d.value else default
  }

  // Paths the adapters read.
  const TextField: seq<Step> := [Key("text")]
  const DeltaText: seq<Step> := [Key("delta"), Key("text")]
  const DeltaContent: seq<Step> := [Key("delta"), Key("content")]
  const MessageContent: seq<Step> := [Key("message"), Key("content")]
  const FirstBlockText: seq<Step> := [Key("message"), Key("content"), First, Key("text")]
  const Content: seq<Step> := [Key("content")]
  const Error: seq<Step> := [Key("error")]
  const ErrorMessage: seq<Step> := [Key("error"), Key("message")]
}
