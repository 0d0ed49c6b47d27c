/**
 * The question record read from a question store (one row of table `questoes`)
 * and the mapping from the four option labels to their texts.
 */
module Questions {

  /** One multiple-choice question; `gabarito` is the label of the correct option. */
  datatype Question = Question(
    id: int,
    numero: int,
    enunciado: string,
    alternativaA: string,
    alternativaB: string,
    alternativaC: string,
    alternativaD: string,
    fonte: string,
    gabarito: string)

  /** The option labels, in the order the interface shows their buttons. */
  const Labels: seq<string> := ["a", "b", "c", "d"]

  /** The option texts of `q`, in label order. */
  function OptionTexts(q: Question): seq<string>
  {
    [q.alternativaA, q.alternativaB, q.alternativaC, q.alternativaD]
  }

  /**
   * The options keyed by label: exactly the four labels are keys, and the
   * i-th label maps to the i-th option text, so every button finds its text.
   */
  function GetAlternatives(q: Question): (m: map<string, string>)
    ensures m.Keys == set l | l in Labels
    ensures |m| == |Labels| == 4
    ensures forall i :: 0 <= i < |Labels| ==> m[Labels[i]] == OptionTexts(q)[i]
  {
    map["a" := q.alternativaA, "b" := q.alternativaB, "c" := q.alternativaC, "d" := q.alternativaD]
  }
}
