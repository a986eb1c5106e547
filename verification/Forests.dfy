/**
 Script trees as values: a forest is a sibling list, each node with its own children first. The
 meaning of `if`, `else` and `in-sources` nodes is a function on forests.
 */
module Forests {
  datatype Forest = Nil | Cons(id: nat, kids: Forest, rest: Forest)

  /** `If(matched)`: an if-rule with the value its condition will have. `Else`: a bag named "else". */
  datatype Kind = Plain | Else | If(matched: bool) | InSources

  function Append(f: Forest, g: Forest): Forest {
    match f
    case Nil => g
    case Cons(id, kids, rest) => Cons(id, kids, Append(rest, g))
  }

  function Size(f: Forest): nat {
    match f
    case Nil => 0
    case Cons(_, kids, rest) => 1 + Size(kids) + Size(rest)
  }

  ghost function Ids(f: Forest): set<nat> {
    match f
    case Nil => {}
    case Cons(id, kids, rest) => {id} + Ids(kids) + Ids(rest)
  }

  /** No id occurs twice. */
  ghost predicate NoDup(f: Forest) {
    match f
    case Nil => true
    case Cons(id, kids, rest) =>
      && id !in Ids(kids) && id !in Ids(rest) && Ids(kids) !! Ids(rest)
      && NoDup(kids) && NoDup(rest)
  }

  lemma NoDupParts(f: Forest)
    requires NoDup(f) && f.Cons?
    ensures NoDup(f.kids) && NoDup(f.rest) && Ids(f) == {f.id} + Ids(f.kids) + Ids(f.rest)
    ensures f.id !in Ids(f.kids) && f.id !in Ids(f.rest) && Ids(f.kids) !! Ids(f.rest)
  {
  }

  /** The first node of the list is an else-bag. */
  predicate ElseFirst(f: Forest, kinds: seq<Kind>) {
    f.Cons? && f.id < |kinds| && kinds[f.id] == Else
  }

  /** The siblings after an if-rule, without the else-bag that belongs to it. */
  function AfterElse(rest: Forest, kinds: seq<Kind>): (r: Forest)
    ensures Size(r) <= Size(rest)
  {
    if ElseFirst(rest, kinds) then rest.rest else rest
  }

  function ElseBody(rest: Forest, kinds: seq<Kind>): (r: Forest)
    ensures Size(r) + Size(AfterElse(rest, kinds)) <= Size(rest)
  {
    if ElseFirst(rest, kinds) then rest.kids else Nil
  }

  lemma {:induction false} AppendSize(f: Forest, g: Forest)
    ensures Size(Append(f, g)) == Size(f) + Size(g)
  {
    match f
    case Nil =>
    case Cons(_, _, rest) => AppendSize(rest, g);
  }

  /** What an if-rule with children `kids` and later siblings `rest` is replaced by, up to the end of the list. */
  function Replacement(matched: bool, kids: Forest, rest: Forest, kinds: seq<Kind>): (r: Forest)
    requires kids.Cons?
    ensures Size(r) < Size(kids) + Size(rest)
  {
    var body := if matched then kids.rest else ElseBody(rest, kinds);
    AppendSize(body, AfterElse(rest, kinds));
    Append(body, AfterElse(rest, kinds))
  }

  /** A condition must be a plain node; a rule or an else-bag in its place is a syntax error. */
  predicate IsCondition(kids: Forest, kinds: seq<Kind>) {
    kids.Cons? && kids.id < |kinds| && kinds[kids.id] == Plain
  }

  /** The script has no syntax error in the parts that initialization reaches. */
  predicate ShakeOk(f: Forest, kinds: seq<Kind>)
    decreases Size(f)
  {
    match f
    case Nil => true
    case Cons(id, kids, rest) =>
      id < |kinds| &&
      match kinds[id]
      case Plain => ShakeOk(kids, kinds) && ShakeOk(rest, kinds)
      case Else => ShakeOk(kids, kinds) && ShakeOk(rest, kinds)
      case If(matched) =>
        && IsCondition(kids, kinds) && ShakeOk(kids.kids, kinds)
        && ShakeOk(Replacement(matched, kids, rest, kinds), kinds)
      case InSources =>
        AppendSize(kids, rest);
        ShakeOk(Append(kids, rest), kinds)
  }

  /** The tree after initialization. */
  function Shake(f: Forest, kinds: seq<Kind>): Forest
    requires ShakeOk(f, kinds)
    decreases Size(f)
  {
    match f
    case Nil => Nil
    case Cons(id, kids, rest) =>
      match kinds[id]
      case Plain => Cons(id, Shake(kids, kinds), Shake(rest, kinds))
      case Else => Cons(id, Shake(kids, kinds), Shake(rest, kinds))
      case If(matched) => Shake(Replacement(matched, kids, rest, kinds), kinds)
      case InSources =>
        AppendSize(kids, rest);
        Shake(Append(kids, rest), kinds)
  }

  /** The order in which init callbacks run. */
  function InitOrder(f: Forest, kinds: seq<Kind>): seq<nat>
    requires ShakeOk(f, kinds)
    decreases Size(f)
  {
    match f
    case Nil => []
    case Cons(id, kids, rest) =>
      match kinds[id]
      case Plain => InitOrder(kids, kinds) + [id] + InitOrder(rest, kinds)
      case Else => InitOrder(kids, kinds) + [id] + InitOrder(rest, kinds)
      case If(matched) =>
        InitOrder(kids.kids, kinds) + [kids.id] + [id] + InitOrder(Replacement(matched, kids, rest, kinds), kinds)
      case InSources =>
        AppendSize(kids, rest);
        [id] + InitOrder(Append(kids, rest), kinds)
  }

  // ---------------------------------------------------------------- list facts

  lemma {:induction false} AppendIds(f: Forest, g: Forest)
    ensures Ids(Append(f, g)) == Ids(f) + Ids(g)
  {
    match f
    case Nil =>
    case Cons(_, _, rest) => AppendIds(rest, g);
  }

  lemma {:induction false} AppendNoDup(f: Forest, g: Forest)
    requires NoDup(f) && NoDup(g) && Ids(f) !! Ids(g)
    ensures NoDup(Append(f, g))
  {
    match f
    case Nil =>
    case Cons(_, _, rest) =>
      AppendNoDup(rest, g);
      AppendIds(rest, g);
  }

  lemma {:induction false} AppendAssoc(f: Forest, g: Forest, h: Forest)
    ensures Append(Append(f, g), h) == Append(f, Append(g, h))
  {
    match f
    case Nil =>
    case Cons(_, _, rest) => AppendAssoc(rest, g, h);
  }

  lemma {:induction false} AppendNil(f: Forest)
    ensures Append(f, Nil) == f
  {
    match f
    case Nil =>
    case Cons(_, _, rest) => AppendNil(rest);
  }

  lemma ReplacementIds(matched: bool, kids: Forest, rest: Forest, kinds: seq<Kind>)
    requires kids.Cons? && NoDup(kids) && NoDup(rest) && Ids(kids) !! Ids(rest)
    ensures var r := Replacement(matched, kids, rest, kinds);
            NoDup(r) && Ids(r) <= Ids(kids.rest) + Ids(rest) && kids.id !in Ids(r) && Ids(kids.kids) !! Ids(r)
  {
    var body := if matched then kids.rest else ElseBody(rest, kinds);
    NoDupParts(kids);
    if rest.Cons? { NoDupParts(rest); }
    AppendIds(body, AfterElse(rest, kinds));
    AppendNoDup(body, AfterElse(rest, kinds));
  }

  // ---------------------------------------------------------------- what shaking guarantees

  /** Only plain nodes and else-bags, at every level. */
  ghost predicate AllPlain(f: Forest, kinds: seq<Kind>) {
    match f
    case Nil => true
    case Cons(id, kids, rest) =>
      id < |kinds| && !kinds[id].If? && !kinds[id].InSources? && AllPlain(kids, kinds) && AllPlain(rest, kinds)
  }

  /** No if or in-sources node is left. */
  lemma {:induction false} NoRuleLeft(f: Forest, kinds: seq<Kind>)
    requires ShakeOk(f, kinds)
    ensures AllPlain(Shake(f, kinds), kinds)
    decreases Size(f)
  {
    match f
    case Nil =>
    case Cons(id, kids, rest) =>
      match kinds[id]
      case Plain => NoRuleLeft(kids, kinds); NoRuleLeft(rest, kinds);
      case Else => NoRuleLeft(kids, kinds); NoRuleLeft(rest, kinds);
      case If(matched) => NoRuleLeft(Replacement(matched, kids, rest, kinds), kinds);
      case InSources =>
        AppendSize(kids, rest);
        NoRuleLeft(Append(kids, rest), kinds);
  }

  ghost predicate NoIdTwice(s: seq<nat>) {
    forall i, j | 0 <= i < j < |s| :: s[i] != s[j]
  }

  ghost function Elems(s: seq<nat>): set<nat> {
    set x | x in s
  }

  lemma NoIdTwiceConcat(a: seq<nat>, b: seq<nat>)
    requires NoIdTwice(a) && NoIdTwice(b) && Elems(a) !! Elems(b)
    ensures NoIdTwice(a + b) && Elems(a + b) == Elems(a) + Elems(b)
  {
    forall i, j | 0 <= i < j < |a + b| ensures (a + b)[i] != (a + b)[j] {
      if i < |a| && |a| <= j {
        assert a[i] in Elems(a) && b[j - |a|] in Elems(b);
      }
    }
  }

  /**
   No init callback runs twice, none runs outside the forest, and every surviving node is initialized;
   the survivors are distinct nodes of the forest.
   */
  lemma {:induction false} InitializedOnce(f: Forest, kinds: seq<Kind>)
    requires ShakeOk(f, kinds) && NoDup(f)
    ensures NoIdTwice(InitOrder(f, kinds)) && Elems(InitOrder(f, kinds)) <= Ids(f)
    ensures NoDup(Shake(f, kinds)) && Ids(Shake(f, kinds)) <= Elems(InitOrder(f, kinds))
    decreases Size(f), 1
  {
    match f
    case Nil =>
    case Cons(id, kids, rest) =>
      match kinds[id]
      case Plain => InitializedPlain(id, kids, rest, kinds);
      case Else => InitializedPlain(id, kids, rest, kinds);
      case If(matched) => InitializedIf(id, matched, kids, rest, kinds);
      case InSources =>
        AppendSize(kids, rest);
        AppendIds(kids, rest);
        AppendNoDup(kids, rest);
        InitializedOnce(Append(kids, rest), kinds);
        NoIdTwiceConcat([id], InitOrder(Append(kids, rest), kinds));
  }

  lemma {:induction false} InitializedPlain(id: nat, kids: Forest, rest: Forest, kinds: seq<Kind>)
    requires ShakeOk(kids, kinds) && ShakeOk(rest, kinds) && NoDup(Cons(id, kids, rest))
    ensures var order := InitOrder(kids, kinds) + [id] + InitOrder(rest, kinds);
            var g := Cons(id, Shake(kids, kinds), Shake(rest, kinds));
            NoIdTwice(order) && Elems(order) <= {id} + Ids(kids) + Ids(rest) && NoDup(g) && Ids(g) <= Elems(order)
    decreases 1 + Size(kids) + Size(rest), 0
  {
    InitializedOnce(kids, kinds);
    InitializedOnce(rest, kinds);
    NoIdTwiceConcat(InitOrder(kids, kinds), [id]);
    NoIdTwiceConcat(InitOrder(kids, kinds) + [id], InitOrder(rest, kinds));
  }

  lemma {:induction false} InitializedIf(id: nat, matched: bool, kids: Forest, rest: Forest, kinds: seq<Kind>)
    requires IsCondition(kids, kinds) && ShakeOk(kids.kids, kinds) && NoDup(Cons(id, kids, rest))
    requires ShakeOk(Replacement(matched, kids, rest, kinds), kinds)
    ensures var r := Replacement(matched, kids, rest, kinds);
            var order := InitOrder(kids.kids, kinds) + [kids.id] + [id] + InitOrder(r, kinds);
            NoIdTwice(order) && Elems(order) <= {id} + Ids(kids) + Ids(rest)
            && NoDup(Shake(r, kinds)) && Ids(Shake(r, kinds)) <= Elems(order)
    decreases 1 + Size(kids) + Size(rest), 0
  {
    var r := Replacement(matched, kids, rest, kinds);
    ReplacementIds(matched, kids, rest, kinds);
    InitializedOnce(kids.kids, kinds);
    InitializedOnce(r, kinds);
    var a := InitOrder(kids.kids, kinds);
    NoIdTwiceConcat(a, [kids.id]);
    NoIdTwiceConcat(a + [kids.id], [id]);
    NoIdTwiceConcat(a + [kids.id] + [id], InitOrder(r, kinds));
  }

  // ---------------------------------------------------------------- the lexical reading

  /**
   The meaning a reader gives to the script: a rule stands for its own body, or for the body of the
   else-bag written right after it, whatever surrounds it.
   */
  function Lexical(f: Forest, kinds: seq<Kind>): Forest {
    match f
    case Nil => Nil
    case Cons(id, kids, rest) =>
      if id >= |kinds| then Nil
      else
        match kinds[id]
        case Plain => Cons(id, Lexical(kids, kinds), Lexical(rest, kinds))
        case Else => Cons(id, Lexical(kids, kinds), Lexical(rest, kinds))
        case InSources => Append(Lexical(kids, kinds), Lexical(rest, kinds))
        case If(matched) =>
          var body := if matched then (if kids.Cons? then Lexical(kids.rest, kinds) else Nil)
                      else if ElseFirst(rest, kinds) then Lexical(rest.kids, kinds) else Nil;
          Append(body, if ElseFirst(rest, kinds) then Lexical(rest.rest, kinds) else Lexical(rest, kinds))
  }

  /** Every else-bag directly follows an if-rule, in every list. */
  ghost predicate WellPlaced(f: Forest, kinds: seq<Kind>) {
    match f
    case Nil => true
    case Cons(id, kids, rest) =>
      && id < |kinds| && !kinds[id].Else?
      && WellPlaced(kids, kinds)
      && (if ElseFirst(rest, kinds) then kinds[id].If? && WellPlaced(rest.kids, kinds) && WellPlaced(rest.rest, kinds)
          else WellPlaced(rest, kinds))
  }

  lemma {:induction false} AppendWellPlaced(f: Forest, g: Forest, kinds: seq<Kind>)
    requires WellPlaced(f, kinds) && WellPlaced(g, kinds)
    ensures WellPlaced(Append(f, g), kinds)
    decreases f
  {
    match f
    case Nil =>
    case Cons(id, kids, rest) =>
      if ElseFirst(rest, kinds) {
        AppendWellPlaced(rest.rest, g, kinds);
      } else {
        AppendWellPlaced(rest, g, kinds);
      }
  }

  lemma {:induction false} LexicalAppend(f: Forest, g: Forest, kinds: seq<Kind>)
    requires WellPlaced(f, kinds) && WellPlaced(g, kinds)
    ensures Lexical(Append(f, g), kinds) == Append(Lexical(f, kinds), Lexical(g, kinds))
    decreases f
  {
    match f
    case Nil =>
    case Cons(id, kids, rest) =>
      var after := if ElseFirst(rest, kinds) then rest.rest else rest;
      LexicalAppend(after, g, kinds);
      match kinds[id]
      case Plain =>
      case InSources => AppendAssoc(Lexical(kids, kinds), Lexical(rest, kinds), Lexical(g, kinds));
      case If(matched) =>
        var body := if matched then (if kids.Cons? then Lexical(kids.rest, kinds) else Nil)
                    else if ElseFirst(rest, kinds) then Lexical(rest.kids, kinds) else Nil;
        AppendAssoc(body, Lexical(after, kinds), Lexical(g, kinds));
  }

  /** When every else-bag follows its if-rule, splicing while iterating gives the lexical meaning. */
  lemma {:induction false} ShakeIsLexical(f: Forest, kinds: seq<Kind>)
    requires ShakeOk(f, kinds) && WellPlaced(f, kinds)
    ensures Shake(f, kinds) == Lexical(f, kinds)
    decreases Size(f)
  {
    match f
    case Nil =>
    case Cons(id, kids, rest) =>
      match kinds[id]
      case Plain => ShakeIsLexical(kids, kinds); ShakeIsLexical(rest, kinds);
      case If(matched) =>
        var body := if matched then kids.rest else ElseBody(rest, kinds);
        var after := AfterElse(rest, kinds);
        AppendWellPlaced(body, after, kinds);
        ShakeIsLexical(Replacement(matched, kids, rest, kinds), kinds);
        LexicalAppend(body, after, kinds);
      case InSources =>
        AppendSize(kids, rest);
        AppendWellPlaced(kids, rest, kinds);
        ShakeIsLexical(Append(kids, rest), kinds);
        LexicalAppend(kids, rest, kinds);
  }

  // ---------------------------------------------------------------- laws of the single constructs

  /** The siblings behind a rule, with the else-bag they begin with taken off. */
  ghost predicate Bag(rest: Forest, kinds: seq<Kind>, e: nat, body: Forest, after: Forest) {
    rest == Cons(e, body, after) && e < |kinds| && kinds[e] == Else
  }

  ghost predicate NoBag(rest: Forest, kinds: seq<Kind>) {
    rest == Nil || rest.id >= |kinds| || kinds[rest.id] != Else
  }

  /** An if-rule needs a plain node in front; anything else, or nothing, is an error. */
  lemma IfNeedsCondition(i: nat, kids: Forest, rest: Forest, kinds: seq<Kind>)
    requires i < |kinds| && kinds[i].If? && ShakeOk(Cons(i, kids, rest), kinds)
    ensures kids.Cons? && kids.id < |kinds| && kinds[kids.id] == Plain && ShakeOk(kids.kids, kinds)
  {
  }

  /**
   A true condition, with an else-bag behind the rule and without: the condition is initialized with all below it,
   then the rule is, and the loop goes on with the rest of the children.
   */
  lemma TrueStep(i: nat, c: nat, below: Forest, body: Forest, rest: Forest, kinds: seq<Kind>)
    requires i < |kinds| && kinds[i] == If(true) && ShakeOk(Cons(i, Cons(c, below, body), rest), kinds)
    ensures forall e, other, after | Bag(rest, kinds, e, other, after) ::
              && ShakeOk(Append(body, after), kinds)
              && Shake(Cons(i, Cons(c, below, body), rest), kinds) == Shake(Append(body, after), kinds)
              && InitOrder(Cons(i, Cons(c, below, body), rest), kinds)
                 == InitOrder(below, kinds) + [c] + [i] + InitOrder(Append(body, after), kinds)
    ensures NoBag(rest, kinds) ==>
              && ShakeOk(Append(body, rest), kinds)
              && Shake(Cons(i, Cons(c, below, body), rest), kinds) == Shake(Append(body, rest), kinds)
              && InitOrder(Cons(i, Cons(c, below, body), rest), kinds)
                 == InitOrder(below, kinds) + [c] + [i] + InitOrder(Append(body, rest), kinds)
  {
  }

  /** A false one: the loop goes on with the children of the else-bag, or behind the rule. */
  lemma FalseStep(i: nat, c: nat, below: Forest, body: Forest, rest: Forest, kinds: seq<Kind>)
    requires i < |kinds| && kinds[i] == If(false) && ShakeOk(Cons(i, Cons(c, below, body), rest), kinds)
    ensures forall e, other, after | Bag(rest, kinds, e, other, after) ::
              && ShakeOk(Append(other, after), kinds)
              && Shake(Cons(i, Cons(c, below, body), rest), kinds) == Shake(Append(other, after), kinds)
              && InitOrder(Cons(i, Cons(c, below, body), rest), kinds)
                 == InitOrder(below, kinds) + [c] + [i] + InitOrder(Append(other, after), kinds)
    ensures NoBag(rest, kinds) ==>
              && ShakeOk(rest, kinds)
              && Shake(Cons(i, Cons(c, below, body), rest), kinds) == Shake(rest, kinds)
              && InitOrder(Cons(i, Cons(c, below, body), rest), kinds)
                 == InitOrder(below, kinds) + [c] + [i] + InitOrder(rest, kinds)
  {
  }

  /** An in-sources node is initialized before its children, which take its place; any other node after them. */
  lemma OtherStep(i: nat, kids: Forest, rest: Forest, kinds: seq<Kind>)
    requires i < |kinds| && !kinds[i].If? && ShakeOk(Cons(i, kids, rest), kinds)
    ensures kinds[i].InSources? ==>
              && ShakeOk(Append(kids, rest), kinds)
              && Shake(Cons(i, kids, rest), kinds) == Shake(Append(kids, rest), kinds)
              && InitOrder(Cons(i, kids, rest), kinds) == [i] + InitOrder(Append(kids, rest), kinds)
    ensures !kinds[i].InSources? ==>
              && ShakeOk(kids, kinds) && ShakeOk(rest, kinds)
              && Shake(Cons(i, kids, rest), kinds) == Cons(i, Shake(kids, kinds), Shake(rest, kinds))
              && InitOrder(Cons(i, kids, rest), kinds) == InitOrder(kids, kinds) + [i] + InitOrder(rest, kinds)
  {
  }

  /** When initialization succeeds, construct by construct. */
  lemma OkStep(i: nat, kids: Forest, rest: Forest, kinds: seq<Kind>)
    requires i < |kinds|
    ensures kinds[i] == Plain || kinds[i] == Else ==>
              (ShakeOk(Cons(i, kids, rest), kinds) <==> ShakeOk(kids, kinds) && ShakeOk(rest, kinds))
    ensures kinds[i] == InSources ==> (ShakeOk(Cons(i, kids, rest), kinds) <==> ShakeOk(Append(kids, rest), kinds))
    ensures kinds[i] == If(true) ==>
              (ShakeOk(Cons(i, kids, rest), kinds) <==>
                && kids.Cons? && kids.id < |kinds| && kinds[kids.id] == Plain && ShakeOk(kids.kids, kinds)
                && (NoBag(rest, kinds) ==> ShakeOk(Append(kids.rest, rest), kinds))
                && (forall e, other, after | Bag(rest, kinds, e, other, after) ::
                      ShakeOk(Append(kids.rest, after), kinds)))
    ensures kinds[i] == If(false) ==>
              (ShakeOk(Cons(i, kids, rest), kinds) <==>
                && kids.Cons? && kids.id < |kinds| && kinds[kids.id] == Plain && ShakeOk(kids.kids, kinds)
                && (NoBag(rest, kinds) ==> ShakeOk(rest, kinds))
                && (forall e, other, after | Bag(rest, kinds, e, other, after) :: ShakeOk(Append(other, after), kinds)))
  {
    if ElseFirst(rest, kinds) { assert Bag(rest, kinds, rest.id, rest.kids, rest.rest); }
  }

  /** Every if-rule, at every level, has a plain node in front. */
  ghost predicate Conditioned(f: Forest, kinds: seq<Kind>) {
    match f
    case Nil => true
    case Cons(id, kids, rest) =>
      && id < |kinds| && (kinds[id].If? ==> kids.Cons? && kids.id < |kinds| && kinds[kids.id] == Plain)
      && Conditioned(kids, kinds) && Conditioned(rest, kinds)
  }

  lemma {:induction false} AppendConditioned(f: Forest, g: Forest, kinds: seq<Kind>)
    requires Conditioned(f, kinds) && Conditioned(g, kinds)
    ensures Conditioned(Append(f, g), kinds)
    decreases f
  {
    match f
    case Nil =>
    case Cons(_, _, rest) => AppendConditioned(rest, g, kinds);
  }

  /** Such a script is initialized without an error, whatever its conditions say. */
  lemma {:induction false} ConditionedSucceeds(f: Forest, kinds: seq<Kind>)
    requires Conditioned(f, kinds)
    ensures ShakeOk(f, kinds)
    decreases Size(f)
  {
    match f
    case Nil =>
    case Cons(id, kids, rest) =>
      match kinds[id]
      case Plain => ConditionedSucceeds(kids, kinds); ConditionedSucceeds(rest, kinds);
      case Else => ConditionedSucceeds(kids, kinds); ConditionedSucceeds(rest, kinds);
      case InSources =>
        AppendSize(kids, rest);
        AppendConditioned(kids, rest, kinds);
        ConditionedSucceeds(Append(kids, rest), kinds);
      case If(matched) =>
        var body, after := if matched then kids.rest else ElseBody(rest, kinds), AfterElse(rest, kinds);
        ConditionedSucceeds(kids.kids, kinds);
        AppendConditioned(body, after, kinds);
        ConditionedSucceeds(Replacement(matched, kids, rest, kinds), kinds);
  }

  /** A well placed list behind another is initialized behind it, and on its own. */
  lemma {:induction false} ShakeAppend(f: Forest, g: Forest, kinds: seq<Kind>)
    requires WellPlaced(f, kinds) && WellPlaced(g, kinds)
    ensures ShakeOk(Append(f, g), kinds) <==> ShakeOk(f, kinds) && ShakeOk(g, kinds)
    ensures ShakeOk(Append(f, g), kinds) ==>
              && Shake(Append(f, g), kinds) == Append(Shake(f, kinds), Shake(g, kinds))
              && InitOrder(Append(f, g), kinds) == InitOrder(f, kinds) + InitOrder(g, kinds)
    decreases Size(f)
  {
    match f
    case Nil =>
    case Cons(id, kids, rest) =>
      match kinds[id]
      case Plain => ShakeAppend(rest, g, kinds);
      case InSources =>
        AppendSize(kids, rest);
        AppendAssoc(kids, rest, g);
        AppendWellPlaced(kids, rest, kinds);
        ShakeAppend(Append(kids, rest), g, kinds);
      case If(matched) =>
        if IsCondition(kids, kinds) {
          var r := Replacement(matched, kids, rest, kinds);
          ReplacementAppend(id, matched, kids, rest, g, kinds);
          ShakeAppend(r, g, kinds);
          ShakeAppendIf(id, matched, kids, rest, g, kinds);
        }
  }

  lemma ShakeAppendIf(id: nat, matched: bool, kids: Forest, rest: Forest, g: Forest, kinds: seq<Kind>)
    requires id < |kinds| && kinds[id] == If(matched) && IsCondition(kids, kinds)
    requires var r := Replacement(matched, kids, rest, kinds);
             && Replacement(matched, kids, Append(rest, g), kinds) == Append(r, g)
             && (ShakeOk(Append(r, g), kinds) <==> ShakeOk(r, kinds) && ShakeOk(g, kinds))
             && (ShakeOk(Append(r, g), kinds) ==>
                   && Shake(Append(r, g), kinds) == Append(Shake(r, kinds), Shake(g, kinds))
                   && InitOrder(Append(r, g), kinds) == InitOrder(r, kinds) + InitOrder(g, kinds))
    ensures var f := Cons(id, kids, rest);
            && (ShakeOk(Append(f, g), kinds) <==> ShakeOk(f, kinds) && ShakeOk(g, kinds))
            && (ShakeOk(Append(f, g), kinds) ==>
                  && Shake(Append(f, g), kinds) == Append(Shake(f, kinds), Shake(g, kinds))
                  && InitOrder(Append(f, g), kinds) == InitOrder(f, kinds) + InitOrder(g, kinds))
  {
    var r := Replacement(matched, kids, rest, kinds);
    if ShakeOk(Append(Cons(id, kids, rest), g), kinds) {
      OrderAssoc(InitOrder(kids.kids, kinds) + [kids.id] + [id], InitOrder(r, kinds), InitOrder(g, kinds));
    }
  }

  lemma OrderAssoc(a: seq<nat>, b: seq<nat>, c: seq<nat>)
    ensures a + (b + c) == a + b + c
  {
  }

  lemma ReplacementAppend(id: nat, matched: bool, kids: Forest, rest: Forest, g: Forest, kinds: seq<Kind>)
    requires WellPlaced(Cons(id, kids, rest), kinds) && WellPlaced(g, kinds) && kinds[id].If?
    requires IsCondition(kids, kinds)
    ensures Replacement(matched, kids, Append(rest, g), kinds) == Append(Replacement(matched, kids, rest, kinds), g)
    ensures WellPlaced(Replacement(matched, kids, rest, kinds), kinds)
  {
    var body, after := if matched then kids.rest else ElseBody(rest, kinds), AfterElse(rest, kinds);
    AppendAssoc(body, after, g);
    AppendWellPlaced(body, after, kinds);
  }

  // ---------------------------------------------------------------- the order among the survivors

  /** Children before their parent, siblings in order. */
  function PostOrder(f: Forest): seq<nat> {
    match f
    case Nil => []
    case Cons(id, kids, rest) => PostOrder(kids) + [id] + PostOrder(rest)
  }

  ghost function Only(s: seq<nat>, keep: set<nat>): seq<nat> {
    if s == [] then [] else (if s[0] in keep then [s[0]] else []) + Only(s[1..], keep)
  }

  lemma {:induction false} OnlyConcat(a: seq<nat>, b: seq<nat>, keep: set<nat>)
    ensures Only(a + b, keep) == Only(a, keep) + Only(b, keep)
  {
    if a == [] {
      assert a + b == b;
    } else {
      assert (a + b)[1..] == a[1..] + b && (a + b)[0] == a[0];
      OnlyConcat(a[1..], b, keep);
      var first := if a[0] in keep then [a[0]] else [];
      OrderAssoc(first, Only(a[1..], keep), Only(b, keep));
    }
  }

  lemma {:induction false} OnlySame(s: seq<nat>, keep: set<nat>, more: set<nat>)
    requires keep <= more && forall x | x in s && x in more :: x in keep
    ensures Only(s, keep) == Only(s, more)
  {
    if s != [] {
      assert s[0] in s && forall x | x in s[1..] :: x in s;
      OnlySame(s[1..], keep, more);
    }
  }

  lemma {:induction false} OnlyNone(s: seq<nat>, keep: set<nat>)
    requires Elems(s) !! keep
    ensures Only(s, keep) == []
  {
    if s != [] {
      assert s[0] in Elems(s);
      assert Elems(s[1..]) <= Elems(s) by { assert forall x | x in s[1..] :: x in s; }
      OnlyNone(s[1..], keep);
    }
  }

  /** The surviving nodes are initialized in the order of the tree they form, each after all that is below it. */
  lemma {:induction false} ChildrenFirst(f: Forest, kinds: seq<Kind>)
    requires ShakeOk(f, kinds) && NoDup(f)
    ensures Only(InitOrder(f, kinds), Ids(Shake(f, kinds))) == PostOrder(Shake(f, kinds))
    decreases Size(f), 1
  {
    match f
    case Nil =>
    case Cons(id, kids, rest) =>
      match kinds[id]
      case Plain => ChildrenFirstPlain(id, kids, rest, kinds);
      case Else => ChildrenFirstPlain(id, kids, rest, kinds);
      case If(matched) =>
        var r, keep := Replacement(matched, kids, rest, kinds), Ids(Shake(f, kinds));
        ReplacementIds(matched, kids, rest, kinds);
        ChildrenFirst(r, kinds);
        InitializedOnce(r, kinds);
        InitializedOnce(kids.kids, kinds);
        var cond := InitOrder(kids.kids, kinds) + [kids.id] + [id];
        OnlyConcat(cond, InitOrder(r, kinds), keep);
        OnlyNone(cond, keep);
      case InSources =>
        AppendSize(kids, rest);
        AppendIds(kids, rest);
        AppendNoDup(kids, rest);
        ChildrenFirst(Append(kids, rest), kinds);
        InitializedOnce(Append(kids, rest), kinds);
        OnlyConcat([id], InitOrder(Append(kids, rest), kinds), Ids(Shake(f, kinds)));
  }

  lemma {:induction false} ChildrenFirstPlain(id: nat, kids: Forest, rest: Forest, kinds: seq<Kind>)
    requires ShakeOk(kids, kinds) && ShakeOk(rest, kinds) && NoDup(Cons(id, kids, rest))
    ensures var g := Cons(id, Shake(kids, kinds), Shake(rest, kinds));
            Only(InitOrder(kids, kinds) + [id] + InitOrder(rest, kinds), Ids(g)) == PostOrder(g)
    decreases 1 + Size(kids) + Size(rest), 0
  {
    var g := Cons(id, Shake(kids, kinds), Shake(rest, kinds));
    var keep, a, b := Ids(g), InitOrder(kids, kinds), InitOrder(rest, kinds);
    ChildrenFirst(kids, kinds);
    ChildrenFirst(rest, kinds);
    InitializedOnce(kids, kinds);
    InitializedOnce(rest, kinds);
    assert forall x | x in a :: x in Elems(a);
    assert forall x | x in b :: x in Elems(b);
    OnlySame(a, Ids(Shake(kids, kinds)), keep);
    OnlySame(b, Ids(Shake(rest, kinds)), keep);
    OnlyConcat(a + [id], b, keep);
    OnlyConcat(a, [id], keep);
    assert Only([id], keep) == [id] by { assert [id][1..] == []; }
  }
}
