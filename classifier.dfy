/** The waste classification questionnaire: a fixed tree of questions whose
    leaves name a disposal container, or the "cannot classify" message.  The
    tree is given twice: as one total function over a complete set of
    answers, and as a transition table walked one reply at a time, which is
    the order in which the form asks its questions.  Lemmas tie the two
    together and characterise each container. */
module Classifier {

  /** Answer to the first question: is the waste solid or liquid. */
  datatype State = Solid | Liquid

  /** Answer to the material question for clean glass, plastic or metal. */
  datatype MaterialAnswer = Pet | Glass | Aluminium | HardPlastic

  /** One answer for every question of the form, whether or not the form
      would get to ask it. */
  datatype Answers = Answers(
    state: State,              // solid or liquid
    natural: bool,             // part of a food or of something natural
    cooked: bool,              // cooked or greasy
    peel: bool,                // peel, seed, bone or vegetable
    paper: bool,               // mainly paper or cardboard
    soiled: bool,              // food remains, wet or greasy
    cleanPaper: bool,          // white paper, printed sheets, notebooks, boxes
    waxed: bool,               // waxed or plastified paper, toilet paper
    glassPlasticMetal: bool,   // glass, plastic or metal
    clean: bool,               // clean, without food or liquid
    material: MaterialAnswer,  // which kind of glass, plastic or metal
    hygiene: bool,             // nappies, sanitary towels, cotton buds, butts
    textile: bool,             // textiles, old clothes or shoes
    electronic: bool,          // appliance, battery or light bulb
    hazardous: bool            // medicine, syringe or chemical
  )

  /** Where the form tells the user to put the waste; `Unresolved` is the
      "cannot classify" message. */
  datatype Outcome = Organic | Recyclable | NonRecyclable | Paper | Special | Unresolved

  /** The form's decision tree over a complete set of answers. */
  function Classify(a: Answers): Outcome {
    if a.state == Solid then
      if a.natural then
        if a.cooked then Organic
        else if a.peel then Organic
        else Unresolved
      else if a.paper then
        if a.soiled then NonRecyclable
        else if a.cleanPaper then Paper
        else if a.waxed then NonRecyclable
        else Unresolved
      else if a.glassPlasticMetal then
        if a.clean then
          if a.material == HardPlastic then NonRecyclable else Recyclable
        else NonRecyclable
      else if a.hygiene then NonRecyclable
      else if a.textile then NonRecyclable
      else if a.electronic then Special
      else if a.hazardous then Special
      else Unresolved
    else
      Special
  }

  // ----------------------------------------------------------------------
  // The same tree as a table of questions, asked one at a time.

  /** The questions in the order the form lays them out; `PeelQ` and
      `WaxedQ` are the follow-ups to the third and sixth questions. */
  datatype Question =
    | StateQ | NaturalQ | CookedQ | PeelQ | PaperQ | SoiledQ | CleanPaperQ | WaxedQ
    | GlassPlasticMetalQ | CleanQ | MaterialQ | HygieneQ | TextileQ | ElectronicQ | HazardousQ

  /** Position of a question in the form. */
  function Rank(q: Question): nat {
    match q
    case StateQ => 0
    case NaturalQ => 1
    case CookedQ => 2
    case PeelQ => 3
    case PaperQ => 4
    case SoiledQ => 5
    case CleanPaperQ => 6
    case WaxedQ => 7
    case GlassPlasticMetalQ => 8
    case CleanQ => 9
    case MaterialQ => 10
    case HygieneQ => 11
    case TextileQ => 12
    case ElectronicQ => 13
    case HazardousQ => 14
  }

  /** A reply chosen on one radio widget. */
  datatype Reply = StateReply(state: State) | YesNo(yes: bool) | MaterialReply(material: MaterialAnswer)

  /** The three kinds of radio widget the form uses. */
  datatype Options = StateOptions | YesNoOptions | MaterialOptions

  /** The options question `q` offers. */
  function Offers(q: Question): Options {
    match q
    case StateQ => StateOptions
    case MaterialQ => MaterialOptions
    case _ => YesNoOptions
  }

  /** The options reply `r` is one of. */
  function OptionsOf(r: Reply): Options {
    match r
    case StateReply(_) => StateOptions
    case YesNo(_) => YesNoOptions
    case MaterialReply(_) => MaterialOptions
  }

  /** The reply is one of the options the question offers. */
  predicate Fits(q: Question, r: Reply) {
    Offers(q) == OptionsOf(r)
  }

  /** What the form does after a reply: ask another question, or show a
      container. */
  datatype Next = Ask(question: Question) | Show(outcome: Outcome)

  /** One step of the tree.  Every question leads only to questions placed
      after it, so no question is asked twice and every walk ends. */
  function Step(q: Question, r: Reply): (n: Next)
    requires Fits(q, r)
    ensures n.Ask? ==> Rank(q) < Rank(n.question)
  {
    match q
    case StateQ => if r.state == Solid then Ask(NaturalQ) else Show(Special)
    case NaturalQ => if r.yes then Ask(CookedQ) else Ask(PaperQ)
    case CookedQ => if r.yes then Show(Organic) else Ask(PeelQ)
    case PeelQ => if r.yes then Show(Organic) else Show(Unresolved)
    case PaperQ => if r.yes then Ask(SoiledQ) else Ask(GlassPlasticMetalQ)
    case SoiledQ => if r.yes then Show(NonRecyclable) else Ask(CleanPaperQ)
    case CleanPaperQ => if r.yes then Show(Paper) else Ask(WaxedQ)
    case WaxedQ => if r.yes then Show(NonRecyclable) else Show(Unresolved)
    case GlassPlasticMetalQ => if r.yes then Ask(CleanQ) else Ask(HygieneQ)
    case CleanQ => if r.yes then Ask(MaterialQ) else Show(NonRecyclable)
    case MaterialQ => if r.material == HardPlastic then Show(NonRecyclable) else Show(Recyclable)
    case HygieneQ => if r.yes then Show(NonRecyclable) else Ask(TextileQ)
    case TextileQ => if r.yes then Show(NonRecyclable) else Ask(ElectronicQ)
    case ElectronicQ => if r.yes then Show(Special) else Ask(HazardousQ)
    case HazardousQ => if r.yes then Show(Special) else Show(Unresolved)
  }

  /** Where a sequence of replies leaves the form. */
  datatype Verdict =
    | Pending(question: Question)            // the replies ran out before a leaf
    | Done(outcome: Outcome, unused: seq<Reply>)
    | Refused(question: Question, reply: Reply)   // a reply the question does not offer

  /** Feeds replies to the form starting at question `q`. */
  function Walk(q: Question, path: seq<Reply>): (v: Verdict)
    ensures v.Done? ==> |v.unused| < |path| && v.unused == path[|path| - |v.unused|..]
    ensures v.Pending? ==> Rank(q) <= Rank(v.question)
    decreases |path|
  {
    if path == [] then Pending(q)
    else if !Fits(q, path[0]) then Refused(q, path[0])
    else match Step(q, path[0])
      case Show(o) => Done(o, path[1..])
      case Ask(q') => Walk(q', path[1..])
  }

  /** The reply a complete set of answers gives to question `q`. */
  function ReplyTo(a: Answers, q: Question): (r: Reply)
    ensures Fits(q, r)
  {
    match q
    case StateQ => StateReply(a.state)
    case NaturalQ => YesNo(a.natural)
    case CookedQ => YesNo(a.cooked)
    case PeelQ => YesNo(a.peel)
    case PaperQ => YesNo(a.paper)
    case SoiledQ => YesNo(a.soiled)
    case CleanPaperQ => YesNo(a.cleanPaper)
    case WaxedQ => YesNo(a.waxed)
    case GlassPlasticMetalQ => YesNo(a.glassPlasticMetal)
    case CleanQ => YesNo(a.clean)
    case MaterialQ => MaterialReply(a.material)
    case HygieneQ => YesNo(a.hygiene)
    case TextileQ => YesNo(a.textile)
    case ElectronicQ => YesNo(a.electronic)
    case HazardousQ => YesNo(a.hazardous)
  }

  /** The replies the form actually asks for, from `q` on.  At most one
      reply per remaining question. */
  function Transcript(q: Question, a: Answers): (t: seq<Reply>)
    ensures 1 <= |t| <= 15 - Rank(q)
    ensures t[0] == ReplyTo(a, q)
    decreases 15 - Rank(q)
  {
    var r := ReplyTo(a, q);
    match Step(q, r)
    case Show(_) => [r]
    case Ask(q') => [r] + Transcript(q', a)
  }

  /** The container the table reaches from `q`. */
  function Resolve(q: Question, a: Answers): Outcome
    decreases 15 - Rank(q)
  {
    match Step(q, ReplyTo(a, q))
    case Show(o) => o
    case Ask(q') => Resolve(q', a)
  }

  /** Walking the transcript reaches the table's container and consumes
      exactly the transcript. */
  lemma {:induction false} WalkTranscript(q: Question, a: Answers, rest: seq<Reply>)
    ensures Walk(q, Transcript(q, a) + rest) == Done(Resolve(q, a), rest)
    decreases 15 - Rank(q)
  {
    var t := Transcript(q, a) + rest;
    assert t[0] == ReplyTo(a, q);
    match Step(q, ReplyTo(a, q))
    case Show(o) =>
      assert t[1..] == rest;
    case Ask(q') =>
      assert t[1..] == Transcript(q', a) + rest;
      WalkTranscript(q', a, rest);
  }

  /** The table and the nested conditionals are the same tree. */
  lemma ResolveIsClassify(a: Answers)
    ensures Resolve(StateQ, a) == Classify(a)
  {
  }

  /** The answers `a` with the answer to `q` replaced by `r`. */
  function Assign(a: Answers, q: Question, r: Reply): (b: Answers)
    requires Fits(q, r)
    ensures ReplyTo(b, q) == r
  {
    match q
    case StateQ => a.(state := r.state)
    case NaturalQ => a.(natural := r.yes)
    case CookedQ => a.(cooked := r.yes)
    case PeelQ => a.(peel := r.yes)
    case PaperQ => a.(paper := r.yes)
    case SoiledQ => a.(soiled := r.yes)
    case CleanPaperQ => a.(cleanPaper := r.yes)
    case WaxedQ => a.(waxed := r.yes)
    case GlassPlasticMetalQ => a.(glassPlasticMetal := r.yes)
    case CleanQ => a.(clean := r.yes)
    case MaterialQ => a.(material := r.material)
    case HygieneQ => a.(hygiene := r.yes)
    case TextileQ => a.(textile := r.yes)
    case ElectronicQ => a.(electronic := r.yes)
    case HazardousQ => a.(hazardous := r.yes)
  }

  /** Replacing the answer to `q` changes the reply to no other question. */
  lemma AssignKeepsOthers(a: Answers, q: Question, r: Reply, q': Question)
    requires Fits(q, r) && q' != q
    ensures ReplyTo(Assign(a, q, r), q') == ReplyTo(a, q')
  {
  }

  /** The transcript from `q` does not read the answer to any earlier
      question `p`. */
  lemma {:induction false} TranscriptReadsLater(q: Question, b: Answers, p: Question, r: Reply)
    requires Fits(p, r) && Rank(p) < Rank(q)
    ensures Transcript(q, Assign(b, p, r)) == Transcript(q, b)
    ensures Resolve(q, Assign(b, p, r)) == Resolve(q, b)
    decreases 15 - Rank(q)
  {
    var reply := ReplyTo(b, q);
    AssignKeepsOthers(b, p, r, q);
    TranscriptAnswered(q, b, reply);
    TranscriptAnswered(q, Assign(b, p, r), reply);
    if Step(q, reply).Ask? {
      TranscriptReadsLater(Step(q, reply).question, b, p, r);
    }
  }

  /** Every reply sequence that reaches a container is the transcript of
      some complete set of answers, followed by the replies left unread:
      the walk adds no behaviour the tree does not have. */
  lemma {:induction false} WalkHasAnswers(q: Question, path: seq<Reply>, base: Answers) returns (a: Answers)
    requires Walk(q, path).Done?
    ensures path == Transcript(q, a) + Walk(q, path).unused
    ensures Resolve(q, a) == Walk(q, path).outcome
    decreases |path|
  {
    WalkAnswered(q, path);
    var n := Step(q, path[0]);
    if n.Show? {
      a := Assign(base, q, path[0]);
      TranscriptAnswered(q, a, path[0]);
      assert path == [path[0]] + path[1..];
    } else {
      var b := WalkHasAnswers(n.question, path[1..], base);
      a := AskedNext(q, path, b, Walk(q, path).unused, Walk(q, path).outcome);
    }
  }

  /** What `Walk` does with the first reply of a walk that ends. */
  lemma WalkAnswered(q: Question, path: seq<Reply>)
    requires Walk(q, path).Done?
    ensures path != [] && Fits(q, path[0])
    ensures Step(q, path[0]).Show? ==> Walk(q, path) == Done(Step(q, path[0]).outcome, path[1..])
    ensures Step(q, path[0]).Ask? ==> Walk(q, path) == Walk(Step(q, path[0]).question, path[1..])
  {
  }

  /** The inductive step of `WalkHasAnswers`: answers for the rest of the
      walk, with the first reply put in front. */
  lemma AskedNext(q: Question, path: seq<Reply>, b: Answers, unused: seq<Reply>, o: Outcome) returns (a: Answers)
    requires path != [] && Fits(q, path[0]) && Step(q, path[0]).Ask?
    requires path[1..] == Transcript(Step(q, path[0]).question, b) + unused
    requires Resolve(Step(q, path[0]).question, b) == o
    ensures path == Transcript(q, a) + unused
    ensures Resolve(q, a) == o
  {
    var r, q' := path[0], Step(q, path[0]).question;
    a := Assign(b, q, r);
    TranscriptReadsLater(q', b, q, r);
    TranscriptAnswered(q, a, r);
    assert path == [r] + path[1..];
  }

  /** One step of `Transcript` and `Resolve` once the reply to `q` is
      known. */
  lemma TranscriptAnswered(q: Question, a: Answers, r: Reply)
    requires ReplyTo(a, q) == r
    ensures Step(q, r).Show? ==> Transcript(q, a) == [r] && Resolve(q, a) == Step(q, r).outcome
    ensures Step(q, r).Ask? ==>
      Transcript(q, a) == [r] + Transcript(Step(q, r).question, a)
      && Resolve(q, a) == Resolve(Step(q, r).question, a)
  {
  }

  /** Each complete set of answers ends in exactly one container, and the
      form asks at most eight questions on the way. */
  lemma TranscriptShort(a: Answers)
    ensures 1 <= |Transcript(StateQ, a)| <= 8
  {
  }

  // ----------------------------------------------------------------------
  // What each container means.

  /** A liquid is special waste, and the form asks nothing more. */
  lemma LiquidIsSpecial(a: Answers, rest: seq<Reply>)
    requires a.state == Liquid
    ensures Classify(a) == Special
    ensures Transcript(StateQ, a) == [StateReply(Liquid)]
    ensures Walk(StateQ, [StateReply(Liquid)] + rest) == Done(Special, rest)
  {
    assert ([StateReply(Liquid)] + rest)[1..] == rest;
  }

  /** Cooked or greasy natural waste is organic. */
  lemma CookedNaturalIsOrganic(a: Answers)
    requires a.state == Solid && a.natural && a.cooked
    ensures Classify(a) == Organic
    ensures Transcript(StateQ, a) == [StateReply(Solid), YesNo(true), YesNo(true)]
  {
  }

  lemma OrganicIff(a: Answers)
    ensures Classify(a) == Organic <==> a.state == Solid && a.natural && (a.cooked || a.peel)
  {
  }

  /** Recyclable only through glass, plastic or metal that is clean and is
      PET, glass or aluminium. */
  lemma RecyclableIff(a: Answers)
    ensures Classify(a) == Recyclable <==>
      a.state == Solid && !a.natural && !a.paper && a.glassPlasticMetal && a.clean
      && a.material in {Pet, Glass, Aluminium}
  {
  }

  /** Paper only through paper or cardboard that is not soiled and is clean
      paper. */
  lemma PaperIff(a: Answers)
    ensures Classify(a) == Paper <==>
      a.state == Solid && !a.natural && a.paper && !a.soiled && a.cleanPaper
  {
  }

  lemma SpecialIff(a: Answers)
    ensures Classify(a) == Special <==>
      a.state == Liquid
      || (!a.natural && !a.paper && !a.glassPlasticMetal && !a.hygiene && !a.textile
          && (a.electronic || a.hazardous))
  {
  }

  lemma NonRecyclableIff(a: Answers)
    ensures Classify(a) == NonRecyclable <==>
      a.state == Solid && !a.natural &&
      (if a.paper then a.soiled || (!a.cleanPaper && a.waxed)
       else if a.glassPlasticMetal then !a.clean || a.material == HardPlastic
       else a.hygiene || a.textile)
  {
  }

  /** The three "cannot classify" leaves. */
  lemma UnresolvedIff(a: Answers)
    ensures Classify(a) == Unresolved <==>
      a.state == Solid &&
      ((a.natural && !a.cooked && !a.peel)
       || (!a.natural && a.paper && !a.soiled && !a.cleanPaper && !a.waxed)
       || (!a.natural && !a.paper && !a.glassPlasticMetal && !a.hygiene && !a.textile
           && !a.electronic && !a.hazardous))
  {
  }

  /** Every container, and the message, is reachable. */
  lemma EveryOutcomeReachable(o: Outcome)
    ensures exists a :: Classify(a) == o
  {
    var none := Answers(Solid, false, false, false, false, false, false, false,
                        false, false, Pet, false, false, false, false);
    match o
    case Organic => assert Classify(none.(natural := true, cooked := true)) == o;
    case Recyclable => assert Classify(none.(glassPlasticMetal := true, clean := true)) == o;
    case NonRecyclable => assert Classify(none.(hygiene := true)) == o;
    case Paper => assert Classify(none.(paper := true, cleanPaper := true)) == o;
    case Special => assert Classify(none.(state := Liquid)) == o;
    case Unresolved => assert Classify(none) == o;
  }

  // ----------------------------------------------------------------------
  // The counters the form bumps at each container.

  /** The five module-level counters; the message bumps none. */
  datatype Tally = Tally(organic: nat, recyclable: nat, nonRecyclable: nat, paper: nat, special: nat)

  const Zero := Tally(0, 0, 0, 0, 0)

  /** The counter a container bumps. */
  function Counter(t: Tally, o: Outcome): nat
    requires o != Unresolved
  {
    match o
    case Organic => t.organic
    case Recyclable => t.recyclable
    case NonRecyclable => t.nonRecyclable
    case Paper => t.paper
    case Special => t.special
  }

  function Total(t: Tally): nat {
    t.organic + t.recyclable + t.nonRecyclable + t.paper + t.special
  }

  /** The increment at one leaf: its own counter goes up by one and no
      other changes; the message changes nothing. */
  function Count(t: Tally, o: Outcome): (u: Tally)
    ensures forall o' :: o' != Unresolved ==>
      Counter(u, o') == Counter(t, o') + (if o' == o then 1 else 0)
    ensures Total(u) == Total(t) + (if o == Unresolved then 0 else 1)
  {
    match o
    case Organic => t.(organic := t.organic + 1)
    case Recyclable => t.(recyclable := t.recyclable + 1)
    case NonRecyclable => t.(nonRecyclable := t.nonRecyclable + 1)
    case Paper => t.(paper := t.paper + 1)
    case Special => t.(special := t.special + 1)
    case Unresolved => t
  }

  /** Counting a run of classifications from zero. */
  function CountAll(os: seq<Outcome>): Tally {
    if os == [] then Zero else Count(CountAll(os[..|os| - 1]), os[|os| - 1])
  }

  /** After a run, each counter is the number of times its container came
      out, and the total misses exactly the unresolved answers. */
  lemma {:induction false} CountAllCounts(os: seq<Outcome>)
    ensures forall o :: o != Unresolved ==> Counter(CountAll(os), o) == multiset(os)[o]
    ensures Total(CountAll(os)) == |os| - multiset(os)[Unresolved]
  {
    if os != [] {
      var init := os[..|os| - 1];
      CountAllCounts(init);
      assert os == init + [os[|os| - 1]];
      assert multiset(os) == multiset(init) + multiset{os[|os| - 1]};
    }
  }
}
