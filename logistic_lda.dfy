/**
 One step of logistic LDA: the configuration check and label tables built
 when the model is set up, then, per batch, author resolution, the belief
 loop, the biased and unbiased predictions and, by mode, the predictions, the
 evaluation loss, or the training loss together with the two commits to the
 shared statistics.

 The network that maps item embeddings to logits is not modelled: the
 logits of a batch are part of its input.
 */
module LogisticLda {
  import opened Results
  import opened Vectors
  import opened Numerics
  import opened Tables
  import opened Belief
  import opened Objective
  import opened Statistics

  // ---------------------------------------------------------------------
  // Set-up
  // ---------------------------------------------------------------------

  /** params['meta_info'] and the hyper-parameters the step reads. */
  datatype Config = Config(
    topics: seq<string>,
    authorIds: seq<int>,
    alpha: real,
    weight: real,
    iterations: int,
    regularization: real,
    maxItems: real,
    useAuthorTopics: bool)

  /** The ways setting up the model fails. */
  datatype SetupError =
    | BadIterations
    | NoTopics
    | TopicTableError(topicError: TableError<string>)
    | AuthorTableError(authorError: TableError<int>)

  /** A configured model: its configuration and its two lookup tables. */
  datatype Model = Model(config: Config, topicTable: map<string, int>, authorTable: map<int, int>)

  /** The topic string of an item or author whose topic is unknown. */
  const MissingTopic: string := ""

  /** The topics, then "", mapped to 0 .. K-1 and then -1. */
  function TopicTable(topics: seq<string>): Result<map<string, int>, TableError<string>>
  {
    CreateTable(topics + [MissingTopic], Some(Range(|topics|) + [Missing]))
  }

  /** The author ids mapped to 0 .. A-1. */
  function AuthorTable(ids: seq<int>): Result<map<int, int>, TableError<int>>
  {
    CreateTable(ids, None)
  }

  /** The graph-construction part of logistic_lda_fn. The iteration count is
      checked first, then the topic count (through the 1 / n_topics of the
      usage initialiser), then the two tables. */
  function Setup(c: Config): (r: Result<Model, SetupError>)
    ensures r.Ok? ==> r.value.config == c && |c.topics| > 0 && c.iterations >= 1
    ensures r.Ok? ==> forall key :: -1 <= Lookup(r.value.topicTable, key) < |c.topics|
    ensures r.Ok? ==> forall key :: -1 <= Lookup(r.value.authorTable, key) < |c.authorIds|
  {
    if c.iterations < 1 then Err(BadIterations)
    else if |c.topics| == 0 then Err(NoTopics)
    else
      match TopicTable(c.topics)
      case Err(e) => Err(TopicTableError(e))
      case Ok(topicTable) =>
        match AuthorTable(c.authorIds)
        case Err(e) => Err(AuthorTableError(e))
        case Ok(authorTable) =>
          TopicLookupsInRange(c.topics);
          AuthorLookupsInRange(c.authorIds);
          Ok(Model(c, topicTable, authorTable))
  }

  /** A model as Setup produces it. */
  predicate Ready(m: Model)
  {
    Setup(m.config) == Ok(m)
  }

  /** What a step needs of its model: at least one topic and one iteration. */
  predicate Configured(m: Model)
  {
    |m.config.topics| > 0 && m.config.iterations >= 1
  }

  /** The keys topics + [""] with values 0 .. K-1, -1 repeat no key with a different
      value exactly when the topics are distinct and none of them is "". */
  lemma TopicKeysConsistent(topics: seq<string>)
    ensures Consistent(topics + [MissingTopic], Range(|topics|) + [Missing])
      <==> Distinct(topics) && MissingTopic !in topics
  {
    var keys, values := topics + [MissingTopic], Range(|topics|) + [Missing];
    var n := |topics|;
    assert forall i :: 0 <= i < n ==> keys[i] == topics[i] && values[i] == i;
    assert keys[n] == MissingTopic && values[n] == Missing;
    if Distinct(topics) && MissingTopic !in topics {
      forall i, j | 0 <= i < |keys| && 0 <= j < |keys| && keys[i] == keys[j]
        ensures values[i] == values[j]
      {
        if i < n && j < n {
          assert topics[i] == topics[j];
        }
      }
    }
  }

  /** The topic table is built exactly when the topics are distinct and none is
      ""; it then maps the i-th topic to i, "" to -1 and every other string to -1. */
  lemma TopicTableCorrect(topics: seq<string>)
    ensures TopicTable(topics).Ok? <==> Distinct(topics) && MissingTopic !in topics
    ensures TopicTable(topics).Ok? ==>
      var t := TopicTable(topics).value;
      (forall i :: 0 <= i < |topics| ==> Lookup(t, topics[i]) == i) &&
      Lookup(t, MissingTopic) == Missing &&
      (forall key :: key !in topics ==> Lookup(t, key) == Missing)
  {
    var keys, values := topics + [MissingTopic], Range(|topics|) + [Missing];
    TopicKeysConsistent(topics);
    CreateTableWithValues(keys, values);
    if TopicTable(topics).Ok? {
      var t := TopicTable(topics).value;
      forall i | 0 <= i < |topics|
        ensures Lookup(t, topics[i]) == i
      {
        assert keys[i] == topics[i] && values[i] == i;
      }
      assert keys[|topics|] == MissingTopic;
      forall key | key !in topics
        ensures Lookup(t, key) == Missing
      {
        if key in keys {
          var i :| 0 <= i < |keys| && keys[i] == key;
          if i < |topics| {
            assert topics[i] == key;
          }
        }
      }
    }
  }

  /** Every topic lookup lands in [-1, K). */
  lemma TopicLookupsInRange(topics: seq<string>)
    requires TopicTable(topics).Ok?
    ensures forall key :: -1 <= Lookup(TopicTable(topics).value, key) < |topics|
  {
    TopicTableCorrect(topics);
    var t := TopicTable(topics).value;
    forall key
      ensures -1 <= Lookup(t, key) < |topics|
    {
      if key in topics {
        var i :| 0 <= i < |topics| && topics[i] == key;
      }
    }
  }

  /** Every author lookup lands in [-1, A). */
  lemma AuthorLookupsInRange(ids: seq<int>)
    requires AuthorTable(ids).Ok?
    ensures forall key :: -1 <= Lookup(AuthorTable(ids).value, key) < |ids|
  {
    CreateTableIndices(ids);
    var t := AuthorTable(ids).value;
    forall key
      ensures -1 <= Lookup(t, key) < |ids|
    {
      if key in ids {
        var i :| 0 <= i < |ids| && ids[i] == key;
      }
    }
  }

  /** Setup fails on fewer than one iteration first, then on an empty topic
      list, and otherwise succeeds exactly when the topics are distinct, none of
      them is "", and the author ids are distinct. */
  lemma SetupSucceeds(c: Config)
    ensures c.iterations < 1 ==> Setup(c) == Err(BadIterations)
    ensures c.iterations >= 1 && |c.topics| == 0 ==> Setup(c) == Err(NoTopics)
    ensures Setup(c).Ok? <==>
      c.iterations >= 1 && |c.topics| > 0 &&
      Distinct(c.topics) && MissingTopic !in c.topics && Distinct(c.authorIds)
  {
    TopicTableCorrect(c.topics);
    CreateTableIndices(c.authorIds);
  }

  /** In a ready model the author table maps the a-th configured id to a and
      every other id to -1. */
  lemma AuthorTableOfReady(m: Model)
    requires Ready(m)
    ensures forall a :: 0 <= a < |m.config.authorIds| ==> Lookup(m.authorTable, m.config.authorIds[a]) == a
    ensures forall key :: key !in m.config.authorIds ==> Lookup(m.authorTable, key) == Missing
  {
    CreateTableIndices(m.config.authorIds);
  }

  // ---------------------------------------------------------------------
  // One batch
  // ---------------------------------------------------------------------

  /** The Estimator mode a step runs in. */
  datatype Mode = Train | Eval | Predict

  /** The features of a batch: raw author ids, author and item topic strings,
      optional item ids, and the logits the network produced for the items. */
  datatype Batch = Batch(
    authorIds: seq<int>,
    authorTopics: seq<string>,
    itemTopics: seq<string>,
    itemIds: Option<seq<int>>,
    logits: Mat)

  /** Every feature has one entry per item and the logits have K columns. */
  predicate WellFormed(b: Batch, nTopics: nat)
  {
    |b.authorTopics| == |b.authorIds| && |b.itemTopics| == |b.authorIds| &&
    (b.itemIds.Some? ==> |b.itemIds.value| == |b.authorIds|) &&
    IsMatrix(b.logits, |b.authorIds|, nTopics)
  }

  /** Why a step fails.
      UnknownAuthor: an author id the table does not know gives index -1, which
      the gather of the counts refuses (the model follows the CPU gather,
      which raises an error; the GPU gather returns a zero row instead).
      SingleItemBatch: the squeeze of the looked-up author ids and labels turns
      a batch of one item into scalars, so the counts are gathered as one row
      of shape [K] instead of [1, K]; every mode then fails on those shapes
      (the tf.where of a [1] condition against [K] rows when author labels are
      used and K > 1, the argmax over axis 1 of the author predictions, the
      argmax over axis 1 of the gathered counts, the scatter_add of [1, K]
      updates at a scalar index). */
  datatype StepError = UnknownAuthor | SingleItemBatch

  /** What a step returns in each mode. A loss is None where the exact-real
      model has no value for it: an empty batch (a mean over no rows) or a
      usage entry equal to -1e-6 (a division by zero). */
  datatype Output =
    | Predictions(
        itemId: seq<int>,
        itemPrediction: seq<nat>,
        itemProbability: seq<real>,
        itemTopic: seq<int>,
        authorId: seq<nat>,
        authorPrediction: seq<nat>,
        authorProbability: seq<real>,
        authorTopic: seq<int>)
    | Evaluation(loss: Option<real>, authorCountPrediction: seq<nat>, itemPrediction: seq<nat>)
    | Training(loss: Option<real>)

  /** HashTable.lookup of every key. */
  function Lookups<K>(table: map<K, int>, keys: seq<K>): (r: seq<int>)
    ensures |r| == |keys| && forall i :: 0 <= i < |keys| ==> r[i] == Lookup(table, keys[i])
  {
    seq(|keys|, i requires 0 <= i < |keys| => Lookup(table, keys[i]))
  }

  /** The author indices of the batch, provided the gather can use all of them
      and the batch keeps its batch axis through the squeeze. */
  function ResolveAuthors(table: map<int, int>, nAuthors: nat, raw: seq<int>): (r: Result<seq<nat>, StepError>)
    ensures r == Err(UnknownAuthor) <==> exists i :: 0 <= i < |raw| && !(0 <= Lookup(table, raw[i]) < nAuthors)
    ensures r == Err(SingleItemBatch) <==> |raw| == 1 && 0 <= Lookup(table, raw[0]) < nAuthors
    ensures r.Ok? ==> |r.value| == |raw| && forall i :: 0 <= i < |raw| ==> r.value[i] == Lookup(table, raw[i])
  {
    var looked := Lookups(table, raw);
    if !(forall i :: 0 <= i < |raw| ==> 0 <= looked[i] < nAuthors) then Err(UnknownAuthor)
    else if |raw| == 1 then Err(SingleItemBatch)
    else Ok(seq(|raw|, i requires 0 <= i < |raw| => looked[i] as nat))
  }

  /** In a ready model a batch fails on an unknown author exactly when one of
      its author ids is not configured, and resolves exactly when every author
      id is configured and the batch does not hold a single item; each item
      then gets the index of its own author id. */
  lemma ResolveAuthorsCorrect(m: Model, raw: seq<int>)
    requires Ready(m)
    ensures ResolveAuthors(m.authorTable, |m.config.authorIds|, raw) == Err(UnknownAuthor)
      <==> exists i :: 0 <= i < |raw| && raw[i] !in m.config.authorIds
    ensures ResolveAuthors(m.authorTable, |m.config.authorIds|, raw).Ok?
      <==> |raw| != 1 && forall i :: 0 <= i < |raw| ==> raw[i] in m.config.authorIds
    ensures ResolveAuthors(m.authorTable, |m.config.authorIds|, raw).Ok? ==>
      var ids := ResolveAuthors(m.authorTable, |m.config.authorIds|, raw).value;
      forall i :: 0 <= i < |raw| ==> m.config.authorIds[ids[i]] == raw[i]
  {
    var ids := m.config.authorIds;
    AuthorTableOfReady(m);
    forall i | 0 <= i < |raw| && raw[i] in ids
      ensures 0 <= Lookup(m.authorTable, raw[i]) < |ids| && ids[Lookup(m.authorTable, raw[i])] == raw[i]
    {
      var a :| 0 <= a < |ids| && ids[a] == raw[i];
    }
    forall i | 0 <= i < |raw| && raw[i] !in ids
      ensures Lookup(m.authorTable, raw[i]) == Missing
    {
      var key := raw[i];
      assert key !in m.config.authorIds;
    }
  }

  /** The belief engine's share of the configuration. */
  function BeliefParams(c: Config): Params
  {
    Params(c.alpha, c.weight, c.useAuthorTopics)
  }

  /** What the forward computation of a batch yields. */
  datatype Pass = Pass(prediction: Mat, bias: Mat, biasedLogits: Mat, probs: Mat, probsBiased: Mat)

  /** The belief loop on the gathered counts, then logits_biased, probs and
      probs_biased. */
  function Forward(t: Transcendentals, c: Config, gathered: Mat, labels: seq<int>, logits: Mat): (r: Pass)
    requires ExpPositive(t) && c.iterations >= 1
    requires WellShaped(gathered, labels, |c.topics|) && IsMatrix(logits, |labels|, |c.topics|)
    ensures IsMatrix(r.prediction, |labels|, |c.topics|) && IsMatrix(r.bias, |labels|, |c.topics|)
    ensures IsMatrix(r.biasedLogits, |labels|, |c.topics|)
    ensures IsMatrix(r.probs, |labels|, |c.topics|) && IsMatrix(r.probsBiased, |labels|, |c.topics|)
    ensures forall i :: 0 <= i < |labels| ==> IsDistribution(r.probs[i]) && IsDistribution(r.probsBiased[i])
  {
    var nTopics := |c.topics|;
    var p := BeliefParams(c);
    var bias := BiasOfRound(t, p, gathered, labels, nTopics, c.iterations as nat);
    var biasedLogits := BiasedLogits(logits, bias);
    Pass(PredictionAfter(t, p, gathered, labels, nTopics, c.iterations as nat), bias, biasedLogits,
      SoftmaxRows(t, logits), SoftmaxRows(t, biasedLogits))
  }

  /** The smallest author topic weight used for the author predictions. */
  const WeightFloor: real := 0.00000001

  /** The author topic predictions reported in prediction mode: the loop's last
      predictions, or softmax(1e-8 * topic_biases) when the weight is below 1e-8. */
  function AuthorBelief(t: Transcendentals, c: Config, f: Pass): Mat
    requires ExpPositive(t)
  {
    if c.weight < WeightFloor then SoftmaxRows(t, seq(|f.bias|, i requires 0 <= i < |f.bias| => Scale(WeightFloor, f.bias[i])))
    else f.prediction
  }

  /** The mean cross entropy of the logits against the regularised targets. */
  function BatchLoss(t: Transcendentals, c: Config, f: Pass, usage: Vec, logits: Mat): Option<real>
    requires |usage| > 0 && IsMatrix(logits, |logits|, |usage|)
    requires IsMatrix(f.probs, |logits|, |usage|) && IsMatrix(f.probsBiased, |logits|, |usage|)
  {
    if |logits| == 0 || exists k :: 0 <= k < |usage| && usage[k] + Epsilon == 0.0 then None
    else Some(Loss(t, Targets(f.probsBiased, f.probs, usage, c.regularization), logits))
  }

  /** The forward computation of a batch whose authors resolved to ids. */
  function Prepared(t: Transcendentals, m: Model, counts: Mat, b: Batch, ids: seq<nat>): (r: Pass)
    requires ExpPositive(t) && Configured(m)
    requires IsMatrix(counts, |m.config.authorIds|, |m.config.topics|) && WellFormed(b, |m.config.topics|)
    requires |ids| == |b.authorIds| && forall i :: 0 <= i < |ids| ==> ids[i] < |m.config.authorIds|
    ensures IsMatrix(r.prediction, |ids|, |m.config.topics|) && IsMatrix(r.bias, |ids|, |m.config.topics|)
    ensures IsMatrix(r.biasedLogits, |ids|, |m.config.topics|)
    ensures IsMatrix(r.probs, |ids|, |m.config.topics|) && IsMatrix(r.probsBiased, |ids|, |m.config.topics|)
    ensures forall i :: 0 <= i < |ids| ==> IsDistribution(r.probs[i]) && IsDistribution(r.probsBiased[i])
  {
    Forward(t, m.config, GatherRows(counts, ids), Lookups(m.topicTable, b.authorTopics), b.logits)
  }

  /** What a step returns, as a function of the statistics before it. */
  function Outcome(t: Transcendentals, m: Model, counts: Mat, usage: Vec, mode: Mode, b: Batch): Result<Output, StepError>
    requires ExpPositive(t) && Configured(m)
    requires IsMatrix(counts, |m.config.authorIds|, |m.config.topics|) && |usage| == |m.config.topics|
    requires WellFormed(b, |m.config.topics|)
  {
    match ResolveAuthors(m.authorTable, |m.config.authorIds|, b.authorIds)
    case Err(e) => Err(e)
    case Ok(ids) =>
      var f := Prepared(t, m, counts, b, ids);
      match mode
      case Predict =>
        var belief := AuthorBelief(t, m.config, f);
        Ok(Predictions(
          if b.itemIds.Some? then b.itemIds.value else seq(|ids|, i => -1),
          ArgmaxRows(f.biasedLogits),
          MaxRows(f.probsBiased),
          Lookups(m.topicTable, b.itemTopics),
          ids,
          ArgmaxRows(belief),
          MaxRows(belief),
          Lookups(m.topicTable, b.authorTopics)))
      case Eval =>
        Ok(Evaluation(BatchLoss(t, m.config, f, usage, b.logits),
          ArgmaxRows(GatherRows(counts, ids)), ArgmaxRows(f.biasedLogits)))
      case Train =>
        Ok(Training(BatchLoss(t, m.config, f, usage, b.logits)))
  }

  /** max_items_per_author * n_authors, the divisor of the usage commit. */
  function UsageScale(c: Config): (r: real)
    ensures c.maxItems != 0.0 && |c.authorIds| > 0 ==> r != 0.0
  {
    NonZeroProduct(c.maxItems, |c.authorIds| as real);
    c.maxItems * |c.authorIds| as real
  }

  lemma NonZeroProduct(x: real, y: real)
    ensures x != 0.0 && y != 0.0 ==> x * y != 0.0
  {
  }

  /** The counts after a step: committed in training, unchanged otherwise. */
  function NextCounts(t: Transcendentals, m: Model, counts: Mat, mode: Mode, b: Batch): Mat
    requires ExpPositive(t) && Configured(m)
    requires IsMatrix(counts, |m.config.authorIds|, |m.config.topics|) && WellFormed(b, |m.config.topics|)
    requires mode == Train ==> m.config.maxItems != 0.0
  {
    match ResolveAuthors(m.authorTable, |m.config.authorIds|, b.authorIds)
    case Err(_) => counts
    case Ok(ids) =>
      if mode == Train then
        CommittedCounts(counts, |m.config.topics|, ids, Prepared(t, m, counts, b, ids).probsBiased, m.config.maxItems)
      else counts
  }

  /** The usage after a step: committed in training, unchanged otherwise. */
  function NextUsage(t: Transcendentals, m: Model, counts: Mat, usage: Vec, mode: Mode, b: Batch): Vec
    requires ExpPositive(t) && Configured(m)
    requires IsMatrix(counts, |m.config.authorIds|, |m.config.topics|) && |usage| == |m.config.topics|
    requires WellFormed(b, |m.config.topics|)
    requires mode == Train ==> m.config.maxItems != 0.0 && |m.config.authorIds| > 0
  {
    match ResolveAuthors(m.authorTable, |m.config.authorIds|, b.authorIds)
    case Err(_) => usage
    case Ok(ids) =>
      if mode == Train then
        UpdatedUsage(usage, Prepared(t, m, counts, b, ids).probs, UsageScale(m.config))
      else usage
  }

  /** The forward computation of a step: the gather of the counts, the belief
      loop, and the two softmaxes. */
  method RunForward(t: Transcendentals, m: Model, stats: GlobalStatistics, b: Batch, ids: seq<nat>)
    returns (gathered: Mat, f: Pass)
    requires ExpPositive(t) && Configured(m) && stats.Valid()
    requires stats.nAuthors == |m.config.authorIds| && stats.nTopics == |m.config.topics|
    requires WellFormed(b, |m.config.topics|)
    requires |ids| == |b.authorIds| && forall i :: 0 <= i < |ids| ==> ids[i] < |m.config.authorIds|
    ensures gathered == GatherRows(stats.Counts(), ids)
    ensures f == Prepared(t, m, stats.Counts(), b, ids)
  {
    var c := m.config;
    var labels := Lookups(m.topicTable, b.authorTopics);
    gathered := stats.Gather(ids);
    var prediction, bias := BeliefIterate(t, BeliefParams(c), gathered, labels, |c.topics|, c.iterations as nat);
    var biasedLogits := BiasedLogits(b.logits, bias);
    f := Pass(prediction, bias, biasedLogits, SoftmaxRows(t, b.logits), SoftmaxRows(t, biasedLogits));
  }

  /** The two commits of a training step. */
  method Commit(stats: GlobalStatistics, c: Config, ids: seq<nat>, f: Pass, gathered: Mat)
    requires stats.Valid() && c.maxItems != 0.0 && stats.nAuthors == |c.authorIds| && stats.nAuthors > 0
    requires forall i :: 0 <= i < |ids| ==> ids[i] < stats.nAuthors
    requires IsMatrix(f.probsBiased, |ids|, stats.nTopics) && IsMatrix(f.probs, |ids|, stats.nTopics)
    requires gathered == GatherRows(stats.Counts(), ids)
    modifies stats.counts, stats.usage
    ensures stats.Counts() == CommittedCounts(old(stats.Counts()), stats.nTopics, ids, f.probsBiased, c.maxItems)
    ensures stats.Usage() == UpdatedUsage(old(stats.Usage()), f.probs, UsageScale(c))
  {
    var maxItems := c.maxItems;
    stats.CommitCounts(ids, f.probsBiased, gathered, maxItems);
    stats.CommitUsage(f.probs, maxItems);
    ScaleOfAuthors(c, maxItems, stats);
  }

  lemma ScaleOfAuthors(c: Config, maxItems: real, stats: GlobalStatistics)
    requires maxItems == c.maxItems && stats.nAuthors == |c.authorIds|
    ensures maxItems * stats.nAuthors as real == UsageScale(c)
  {
  }

  /** One call of the model function on a batch, against the shared statistics. */
  method Step(t: Transcendentals, m: Model, stats: GlobalStatistics, mode: Mode, b: Batch)
    returns (r: Result<Output, StepError>)
    requires ExpPositive(t) && Configured(m) && stats.Valid()
    requires stats.nAuthors == |m.config.authorIds| && stats.nTopics == |m.config.topics|
    requires WellFormed(b, |m.config.topics|)
    requires mode == Train ==> m.config.maxItems != 0.0 && |m.config.authorIds| > 0
    modifies stats.counts, stats.usage
    ensures r == Outcome(t, m, old(stats.Counts()), old(stats.Usage()), mode, b)
    ensures stats.Counts() == NextCounts(t, m, old(stats.Counts()), mode, b)
    ensures stats.Usage() == NextUsage(t, m, old(stats.Counts()), old(stats.Usage()), mode, b)
  {
    var c := m.config;
    var resolved := ResolveAuthors(m.authorTable, |c.authorIds|, b.authorIds);
    if resolved.Err? {
      return Err(resolved.error);
    }
    var ids := resolved.value;
    var gathered, f := RunForward(t, m, stats, b, ids);
    var usage := stats.usage[..];
    match mode
    case Predict =>
      var belief := AuthorBelief(t, c, f);
      r := Ok(Predictions(
        if b.itemIds.Some? then b.itemIds.value else seq(|ids|, i => -1),
        ArgmaxRows(f.biasedLogits),
        MaxRows(f.probsBiased),
        Lookups(m.topicTable, b.itemTopics),
        ids,
        ArgmaxRows(belief),
        MaxRows(belief),
        Lookups(m.topicTable, b.authorTopics)));
    case Eval =>
      r := Ok(Evaluation(BatchLoss(t, c, f, usage, b.logits), ArgmaxRows(gathered), ArgmaxRows(f.biasedLogits)));
    case Train =>
      var loss := BatchLoss(t, c, f, usage, b.logits);
      Commit(stats, c, ids, f, gathered);
      r := Ok(Training(loss));
  }

  // ---------------------------------------------------------------------
  // What a step guarantees
  // ---------------------------------------------------------------------

  /** A step fails on an unknown author exactly when some author id of the batch
      is not configured, fails on its shape exactly when the batch holds a single
      item of a configured author, and a failed step leaves the statistics as
      they were. */
  lemma StepFailures(t: Transcendentals, m: Model, counts: Mat, usage: Vec, mode: Mode, b: Batch)
    requires ExpPositive(t) && Ready(m)
    requires IsMatrix(counts, |m.config.authorIds|, |m.config.topics|) && |usage| == |m.config.topics|
    requires WellFormed(b, |m.config.topics|)
    requires mode == Train ==> m.config.maxItems != 0.0 && |m.config.authorIds| > 0
    ensures Outcome(t, m, counts, usage, mode, b) == Err(UnknownAuthor)
      <==> exists i :: 0 <= i < |b.authorIds| && b.authorIds[i] !in m.config.authorIds
    ensures Outcome(t, m, counts, usage, mode, b) == Err(SingleItemBatch)
      <==> |b.authorIds| == 1 && b.authorIds[0] in m.config.authorIds
    ensures Outcome(t, m, counts, usage, mode, b).Err? ==>
      NextCounts(t, m, counts, mode, b) == counts && NextUsage(t, m, counts, usage, mode, b) == usage
  {
    ResolveAuthorsCorrect(m, b.authorIds);
  }

  /** The author predictions of prediction mode are distributions: the loop's
      last predictions or the softmax of the floored weight times the biases. */
  lemma AuthorBeliefIsDistribution(t: Transcendentals, c: Config, f: Pass, nItems: nat)
    requires ExpPositive(t) && |c.topics| > 0
    requires IsMatrix(f.prediction, nItems, |c.topics|) && IsMatrix(f.bias, nItems, |c.topics|)
    requires forall i :: 0 <= i < nItems ==> IsDistribution(f.prediction[i])
    ensures IsMatrix(AuthorBelief(t, c, f), nItems, |c.topics|)
    ensures forall i :: 0 <= i < nItems ==> IsDistribution(AuthorBelief(t, c, f)[i])
  {
  }

  /** Every index prediction mode reports is in range: item and author
      predictions are topics, topic labels are topics or -1, and every author index
      names the item's own author. */
  lemma PredictionsInRange(t: Transcendentals, m: Model, counts: Mat, usage: Vec, b: Batch)
    requires ExpPositive(t) && Ready(m)
    requires IsMatrix(counts, |m.config.authorIds|, |m.config.topics|) && |usage| == |m.config.topics|
    requires WellFormed(b, |m.config.topics|)
    ensures Outcome(t, m, counts, usage, Predict, b).Ok? ==>
      var o := Outcome(t, m, counts, usage, Predict, b).value;
      var n, nTopics := |b.authorIds|, |m.config.topics|;
      |o.itemPrediction| == n && |o.authorPrediction| == n && |o.authorId| == n &&
      |o.itemTopic| == n && |o.authorTopic| == n &&
      (forall i :: 0 <= i < n ==> o.itemPrediction[i] < nTopics && o.authorPrediction[i] < nTopics) &&
      (forall i :: 0 <= i < n ==> -1 <= o.itemTopic[i] < nTopics && -1 <= o.authorTopic[i] < nTopics) &&
      (forall i :: 0 <= i < n ==> o.authorId[i] < |m.config.authorIds| && m.config.authorIds[o.authorId[i]] == b.authorIds[i])
  {
    ResolveAuthorsCorrect(m, b.authorIds);
    var resolved := ResolveAuthors(m.authorTable, |m.config.authorIds|, b.authorIds);
    if resolved.Ok? {
      var f := Prepared(t, m, counts, b, resolved.value);
      PredictionsAreDistributions(t, BeliefParams(m.config), GatherRows(counts, resolved.value),
        Lookups(m.topicTable, b.authorTopics), |m.config.topics|, m.config.iterations as nat);
      AuthorBeliefIsDistribution(t, m.config, f, |b.authorIds|);
    }
  }

  /** The probabilities prediction mode reports are the largest entries of
      distributions over K topics, so each lies in [1/K, 1]. */
  lemma PredictedProbabilitiesBounded(t: Transcendentals, m: Model, counts: Mat, usage: Vec, b: Batch)
    requires ExpPositive(t) && Configured(m)
    requires IsMatrix(counts, |m.config.authorIds|, |m.config.topics|) && |usage| == |m.config.topics|
    requires WellFormed(b, |m.config.topics|)
    ensures Outcome(t, m, counts, usage, Predict, b).Ok? ==>
      var o := Outcome(t, m, counts, usage, Predict, b).value;
      var share := 1.0 / |m.config.topics| as real;
      |o.itemProbability| == |b.authorIds| && |o.authorProbability| == |b.authorIds| &&
      (forall i :: 0 <= i < |b.authorIds| ==> share <= o.itemProbability[i] <= 1.0) &&
      (forall i :: 0 <= i < |b.authorIds| ==> share <= o.authorProbability[i] <= 1.0)
  {
    var resolved := ResolveAuthors(m.authorTable, |m.config.authorIds|, b.authorIds);
    if resolved.Ok? {
      var ids := resolved.value;
      var f := Prepared(t, m, counts, b, ids);
      PredictionsAreDistributions(t, BeliefParams(m.config), GatherRows(counts, ids),
        Lookups(m.topicTable, b.authorTopics), |m.config.topics|, m.config.iterations as nat);
      AuthorBeliefIsDistribution(t, m.config, f, |ids|);
      var belief := AuthorBelief(t, m.config, f);
      forall i | 0 <= i < |ids|
        ensures 1.0 / |m.config.topics| as real <= Max(f.probsBiased[i]) <= 1.0
        ensures 1.0 / |m.config.topics| as real <= Max(belief[i]) <= 1.0
      {
        MaxOfDistribution(f.probsBiased[i]);
        MaxOfDistribution(belief[i]);
      }
    }
  }

  /** An evaluation or training step on a non-empty batch whose authors resolve
      succeeds and, against a non-negative usage, has a loss. */
  lemma LossDefined(t: Transcendentals, m: Model, counts: Mat, usage: Vec, mode: Mode, b: Batch)
    requires ExpPositive(t) && Configured(m)
    requires IsMatrix(counts, |m.config.authorIds|, |m.config.topics|) && |usage| == |m.config.topics|
    requires WellFormed(b, |m.config.topics|)
    requires NonNegative(usage) && mode != Predict && |b.authorIds| > 0
    requires ResolveAuthors(m.authorTable, |m.config.authorIds|, b.authorIds).Ok?
    ensures Outcome(t, m, counts, usage, mode, b).Ok?
    ensures Outcome(t, m, counts, usage, mode, b).value.loss.Some?
  {
    RegulariserDefined(usage);
  }

  /** A training step keeps the usage a distribution when the batch holds at most
      max_items_per_author * n_authors items, and in any case moves its mass toward 1. */
  lemma TrainingKeepsUsageDistribution(t: Transcendentals, m: Model, counts: Mat, usage: Vec, b: Batch)
    requires ExpPositive(t) && Configured(m)
    requires IsMatrix(counts, |m.config.authorIds|, |m.config.topics|) && |usage| == |m.config.topics|
    requires WellFormed(b, |m.config.topics|)
    requires m.config.maxItems > 0.0 && |m.config.authorIds| > 0
    ensures Sum(NextUsage(t, m, counts, usage, Train, b))
      == Toward(Sum(usage), 1.0, Kept(|b.authorIds|, UsageScale(m.config)))
      || Outcome(t, m, counts, usage, Train, b).Err?
    ensures IsDistribution(usage) && |b.authorIds| as real <= UsageScale(m.config) ==>
      IsDistribution(NextUsage(t, m, counts, usage, Train, b))
  {
    var resolved := ResolveAuthors(m.authorTable, |m.config.authorIds|, b.authorIds);
    if resolved.Ok? {
      var f := Prepared(t, m, counts, b, resolved.value);
      var scale := UsageScale(m.config);
      PositiveProduct(m.config.maxItems, |m.config.authorIds| as real);
      UsageMass(usage, f.probs, scale);
      if IsDistribution(usage) && |b.authorIds| as real <= scale {
        UsageStaysDistribution(usage, f.probs, scale);
      }
    }
  }

  lemma PositiveProduct(x: real, y: real)
    requires x > 0.0 && y > 0.0
    ensures x * y > 0.0
  {
  }

  /** A training step keeps every count non-negative when the batch holds at most
      max_items_per_author items. */
  lemma TrainingKeepsCountsNonNegative(t: Transcendentals, m: Model, counts: Mat, b: Batch)
    requires ExpPositive(t) && Configured(m)
    requires IsMatrix(counts, |m.config.authorIds|, |m.config.topics|) && WellFormed(b, |m.config.topics|)
    requires m.config.maxItems > 0.0 && |b.authorIds| as real <= m.config.maxItems
    requires forall a :: 0 <= a < |counts| ==> NonNegative(counts[a])
    ensures forall a :: 0 <= a < |counts| ==> NonNegative(NextCounts(t, m, counts, Train, b)[a])
  {
    var resolved := ResolveAuthors(m.authorTable, |m.config.authorIds|, b.authorIds);
    if resolved.Ok? {
      var ids := resolved.value;
      var f := Prepared(t, m, counts, b, ids);
      forall a | 0 <= a < |counts|
        ensures NonNegative(NextCounts(t, m, counts, Train, b)[a])
      {
        OccurrencesAtMost(ids, |ids|, a);
        CountsStayNonNegative(counts, |m.config.topics|, ids, f.probsBiased, m.config.maxItems, a);
      }
    }
  }

  /** A training step leaves the count row of every author without items in the
      batch as it was. */
  lemma TrainingLeavesAbsentAuthors(t: Transcendentals, m: Model, counts: Mat, b: Batch, a: nat)
    requires ExpPositive(t) && Ready(m)
    requires IsMatrix(counts, |m.config.authorIds|, |m.config.topics|) && WellFormed(b, |m.config.topics|)
    requires m.config.maxItems != 0.0
    requires a < |m.config.authorIds| && m.config.authorIds[a] !in b.authorIds
    ensures NextCounts(t, m, counts, Train, b)[a] == counts[a]
  {
    ResolveAuthorsCorrect(m, b.authorIds);
    var resolved := ResolveAuthors(m.authorTable, |m.config.authorIds|, b.authorIds);
    if resolved.Ok? {
      var ids := resolved.value;
      assert a !in ids;
      AbsentAuthorsUnchanged(counts, |m.config.topics|, ids, Prepared(t, m, counts, b, ids).probsBiased, m.config.maxItems, a);
    }
  }

  /** In a training step the count mass of author a moves toward
      max_items_per_author, leaving the fraction 1 - c / max_items_per_author of the
      gap, c being the number of a's items in the batch. */
  lemma TrainingRowMass(t: Transcendentals, m: Model, counts: Mat, b: Batch, ids: seq<nat>, a: nat)
    requires ExpPositive(t) && Configured(m)
    requires IsMatrix(counts, |m.config.authorIds|, |m.config.topics|) && WellFormed(b, |m.config.topics|)
    requires m.config.maxItems != 0.0
    requires ResolveAuthors(m.authorTable, |m.config.authorIds|, b.authorIds) == Ok(ids)
    requires a < |m.config.authorIds|
    ensures Sum(NextCounts(t, m, counts, Train, b)[a])
      == Toward(Sum(counts[a]), m.config.maxItems, Kept(Occurrences(ids, |ids|, a), m.config.maxItems))
  {
    CountsRowMass(counts, |m.config.topics|, ids, Prepared(t, m, counts, b, ids).probsBiased, m.config.maxItems, a);
  }
}
