/** Model-produced flashcard candidates: keyed, each naming its parent by key, with public omissions. */
module Candidates {
  import opened Domain

  datatype Role = OverviewRole | SectionRole | DetailRole | MacroRole | AtomicRole

  /** A candidate as the checkers see it: `prompt` and `answer` are the normalised texts, `content` the canonical text
      of everything but the two keys, `morphology` whether the morphology fields are filled in. */
  datatype Candidate = Candidate(
    key: string, parent: Option<string>, role: Role, directRecall: bool, text: string, prompt: string, answer: string,
    content: string, evidence: seq<string>, media: seq<string>, morphology: bool)

  datatype Omission = Omission(reason: string, evidence: seq<string>)

  datatype CandidateBatch = CandidateBatch(candidates: seq<Candidate>, omissions: seq<Omission>)

  function KeysOf(candidates: seq<Candidate>): seq<string> {
    seq(|candidates|, i requires 0 <= i < |candidates| => candidates[i].key)
  }

  /** Candidate `i` is a root or names the key of an earlier candidate. */
  ghost predicate ParentEarlier(candidates: seq<Candidate>, i: int)
    requires 0 <= i < |candidates|
  {
    candidates[i].parent.Some? ==> exists j :: 0 <= j < i && candidates[j].key == candidates[i].parent.value
  }

  /** A candidate batch: bounded, distinct keys and omissions, and a parent forest in listing order. */
  ghost predicate WellFormed(batch: CandidateBatch) {
    && |batch.candidates| <= 24 && |batch.omissions| <= 24
    && Distinct(batch.omissions) && Distinct(KeysOf(batch.candidates))
    && forall i :: 0 <= i < |batch.candidates| ==> ParentEarlier(batch.candidates, i)
  }

  /** The constructor's check, with its loop over the keys seen so far. */
  method Admits(batch: CandidateBatch) returns (ok: bool)
    ensures ok <==> WellFormed(batch)
  {
    if |batch.candidates| > 24 || |batch.omissions| > 24 || !Distinct(batch.omissions) ||
      !Distinct(KeysOf(batch.candidates)) {
      return false;
    }
    var seen: set<string> := {};
    for n := 0 to |batch.candidates|
      invariant forall k :: k in seen <==> exists j :: 0 <= j < n && batch.candidates[j].key == k
      invariant forall i :: 0 <= i < n ==> ParentEarlier(batch.candidates, i)
    {
      var candidate := batch.candidates[n];
      if candidate.parent.Some? && candidate.parent.value !in seen {
        assert !ParentEarlier(batch.candidates, n);
        return false;
      }
      seen := seen + {candidate.key};
    }
    ok := true;
  }

  // ------------------------------------------------------- evidence and texts

  datatype Passage = Passage(citation: string, text: string)
  datatype Media = Media(handle: string, evidence: string, citation: string)

  /** The prepared scope: its active topics, the evidence handles of each topic, and the trusted passages. */
  datatype TopicScope = TopicScope(
    active: seq<string>, handles: map<string, set<string>>, trusted: map<string, Passage>)

  /** What the content and media ports resolve. */
  datatype Ports = Ports(content: map<string, Passage>, media: map<string, Media>)

  function Handles(scope: TopicScope, topic: string): set<string> {
    if topic in scope.handles then scope.handles[topic] else {}
  }

  function CitedBy(candidates: seq<Candidate>): set<string> {
    set i, j | 0 <= i < |candidates| && 0 <= j < |candidates[i].evidence| :: candidates[i].evidence[j]
  }

  function OmittedBy(omissions: seq<Omission>): set<string> {
    set i, j | 0 <= i < |omissions| && 0 <= j < |omissions[i].evidence| :: omissions[i].evidence[j]
  }

  /** A trusted handle whose citation still resolves to the trusted passage. */
  predicate Canonical(scope: TopicScope, ports: Ports, h: string) {
    h in scope.trusted && scope.trusted[h].citation in ports.content &&
      ports.content[scope.trusted[h].citation] == scope.trusted[h]
  }

  /** Every handle a draft refers to is trusted and canonical. */
  predicate EvidenceResolves(scope: TopicScope, ports: Ports, batch: CandidateBatch) {
    forall h :: h in CitedBy(batch.candidates) + OmittedBy(batch.omissions) ==> Canonical(scope, ports, h)
  }

  function PromptsOf(candidates: seq<Candidate>): seq<string> {
    seq(|candidates|, i requires 0 <= i < |candidates| => candidates[i].prompt)
  }

  function AnswersOf(candidates: seq<Candidate>): seq<string> {
    seq(|candidates|, i requires 0 <= i < |candidates| => candidates[i].answer)
  }

  function ContentsOf(candidates: seq<Candidate>): seq<string> {
    seq(|candidates|, i requires 0 <= i < |candidates| => candidates[i].content)
  }

  predicate NoneEmpty(texts: seq<string>) {
    forall i :: 0 <= i < |texts| ==> texts[i] != ""
  }
}
