/**
  The content cache's memory and the statements that run under its mutex. Causes of unreadiness are
  not kept, only which exams are unready.
 */
module ContentModel {
  import opened Common
  import opened Entities

  /** What students see of an item: neither its answer key nor its rubric. */
  datatype ItemDto = ItemDto(
    id: Id, sectionId: Id, sectionTitle: string, sectionSortOrder: int, sortOrder: int, questionType: QuestionType,
    prompt: string, options: seq<Fields>, points: int, requiresManualGrading: bool)

  type Content = seq<ItemDto>

  function Dto(it: Item): ItemDto {
    ItemDto(it.id, it.sectionId, it.sectionTitle, it.sectionSortOrder, it.sortOrder, it.questionType, it.prompt,
            it.options, it.points, it.requiresManualGrading)
  }

  /** The student-facing view of an exam's stored items, in listing order. */
  function View(items: seq<Item>): (c: Content)
    ensures |c| == |items|
  {
    seq(|items|, i requires 0 <= i < |items| => Dto(items[i]))
  }

  /** What a student sees of the item is its stored columns; the answer key and the rubric are not among them. */
  predicate ShowsItem(d: ItemDto, it: Item) {
    && d.id == it.id && d.sectionId == it.sectionId && d.sectionTitle == it.sectionTitle
    && d.sectionSortOrder == it.sectionSortOrder && d.sortOrder == it.sortOrder && d.questionType == it.questionType
    && d.prompt == it.prompt && d.options == it.options && d.points == it.points
    && d.requiresManualGrading == it.requiresManualGrading
  }

  /** The content shows exactly these items, in this order. */
  ghost predicate ShowsItems(c: Content, items: seq<Item>) {
    |c| == |items| && forall i :: 0 <= i < |items| ==> ShowsItem(c[i], items[i])
  }

  /** Items that differ in their answer keys and rubrics at most. */
  ghost predicate SameButKeys(xs: seq<Item>, ys: seq<Item>) {
    |xs| == |ys| && forall i :: 0 <= i < |xs| ==> ys[i] == xs[i].(answerKey := ys[i].answerKey, rubric := ys[i].rubric)
  }

  lemma ShowsIff(c: Content, items: seq<Item>)
    ensures ShowsItems(c, items) <==> c == View(items)
  {
  }

  /** Answer keys and rubrics make no difference to what is shown. */
  lemma KeysNotShown(c: Content, d: Content, xs: seq<Item>, ys: seq<Item>)
    requires SameButKeys(xs, ys) && ShowsItems(c, xs) && ShowsItems(d, ys)
    ensures c == d
  {
    forall i | 0 <= i < |c| ensures c[i] == d[i] {
    }
  }

  datatype Memory = Memory(cache: map<Id, Content>, unready: set<Id>, generation: map<Id, nat>)

  function Gen(m: Memory, e: Id): nat {
    if e in m.generation then m.generation[e] else 0
  }

  /** A new publication: the exam becomes unready and its generation is the token. */
  function Begin(m: Memory, e: Id): Memory {
    m.(generation := m.generation[e := Gen(m, e) + 1], unready := m.unready + {e})
  }

  /**
    After a rollback: an exam never served loses its marker, a served one stays refused; a stale token changes
    nothing.
   */
  function Cancel(m: Memory, e: Id, token: nat): Memory {
    if Gen(m, e) != token then m
    else if e !in m.cache then m.(unready := m.unready - {e})
    else m.(unready := m.unready + {e})
  }

  function MarkUnready(m: Memory, e: Id): Memory {
    m.(unready := m.unready + {e})
  }

  /** The publication of a rebuilt cache; a stale token changes nothing. */
  function Publish(m: Memory, e: Id, token: nat, c: Content): Memory {
    if Gen(m, e) != token then m else Put(m, e, c)
  }

  function Put(m: Memory, e: Id, c: Content): Memory {
    m.(cache := m.cache[e := c], unready := m.unready - {e})
  }

  /** A reload's first statement: every cached and every listed exam becomes unready with a newer generation. */
  function MarkReload(m: Memory, listed: set<Id>): Memory {
    m.(unready := m.unready + m.cache.Keys + listed,
       generation := map e | e in m.generation.Keys + m.cache.Keys + listed ::
         Gen(m, e) + (if e in m.cache then 1 else 0) + (if e in listed then 1 else 0))
  }

  /** A reload's last statement: exams that were not persisted when it began are forgotten. */
  function Cleanup(m: Memory, listed: set<Id>): Memory {
    m.(cache := map e | e in m.cache && e in listed :: m.cache[e], unready := m.unready * listed)
  }

  datatype Reply = Served(content: Content) | NotReady | NotLoaded

  /** What a student asking for an exam gets. */
  function Serve(m: Memory, e: Id): Reply {
    if e in m.unready then NotReady else if e !in m.cache then NotLoaded else Served(m.cache[e])
  }

  /** The persisted exams' items, as the listing returns them. */
  type Items = map<Id, seq<Item>>

  /** Whatever is served is what is persisted. */
  ghost predicate Agrees(m: Memory, db: Items) {
    forall e :: e in m.cache && e !in m.unready ==> e in db && m.cache[e] == View(db[e])
  }

  /** `/readyz` answers 200. */
  predicate Ready(m: Memory, persisted: set<Id>) {
    persisted != {} && m.unready == {} && m.cache.Keys == persisted
  }
}
