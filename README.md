# Logistic LDA: a verified model of one model-function step

This project models the core of logistic LDA's model function (`logistic_lda_fn`
in `code/models.py`) and proves properties of the model. Logistic LDA is a topic
model in which a neural network gives each item (a tweet, an image, ...) topic
logits, and items are grouped by author.

The modelled step covers:
- the configuration check;
- the two lookup tables built by `create_table`: topic strings to topic indices, and raw author ids to row indices;
- the per-author topic counts and the global topic usage, two pieces of state shared by all batches;
- the mean-field belief loop, which turns an author's counts (and, optionally, the author's observed topic) into a bias on every item's logits;
- the biased and unbiased softmax predictions;
- by mode:
  - prediction mode returns its outputs;
  - evaluation mode returns the loss. The loss is a soft-target cross entropy (`softmax_cross_entropy`) of the unbiased logits against the biased probabilities plus an inverse-usage regulariser;
  - training mode returns the loss and applies the two commits to the shared state: a `scatter_add` on the counts and an `assign_add` on the usage.

Modules, one per file:

- `results.dfy` (`Results`): `Option` and `Result`.
- `vectors.dfy` (`Vectors`): vectors and matrices of reals (the float `[K]` and `[B, K]` tensors) and facts about their sums.
- `numerics.dfy` (`Numerics`): softmax, log-sum-exp, argmax and max. `exp`, `log` and `digamma` are not computed. They are passed in as function values (`Transcendentals`). The only assumption made about them is that `exp` is positive. That `digamma` is increasing on the positive reals is assumed only where a lemma says so.
- `tables.dfy` (`Tables`): `create_table` and `HashTable.lookup`, with the initializer's two failure cases.
- `belief.dfy` (`Belief`): the belief loop, as a method proved against the functions `PredictionAfter` and `BiasOfRound`.
- `objective.dfy` (`Objective`): the cross entropy, the regularised target and the loss.
- `statistics.dfy` (`Statistics`): the shared state, a class holding an `array2<real>` of counts and an `array<real>` of usage. Its count commit is a loop proved equal to `ScatterAdd` of the increments computed from rows the caller gathered; `LogisticLda.Commit`, whose caller gathers those rows from the current counts, ties it to `CommittedCounts`. Its usage commit is a loop proved equal to `UpdatedUsage`. Lemmas say what a commit does to a row, its mass and its sign, and to the usage.
- `logistic_lda.dfy` (`LogisticLda`): `Setup` (the configuration check and the tables), and `Step` (one batch in one mode) proved against the functions `Outcome`, `NextCounts` and `NextUsage`. Lemmas state what a step guarantees.

Three facts about the code that are easy to misread:

- The usage commit adds `reduce_sum` over the batch of `(probs - usage) / (max_items_per_author * n_authors)` (line 290). It is not a mean.
- When every item of an author predicts `p`, the author's count row moves toward `max_items_per_author * p`, not toward `p` (`Statistics.CountsMoveTowardTarget`).
- The author predictions reported in prediction mode are recomputed from the last round's biases as `softmax(1e-8 * topic_biases)` whenever `author_topic_weight < 1e-8` (lines 241-242). Otherwise they are the loop's last predictions.

## Model

| member | source | states |
|---|---|---|
| Objective.CrossEntropyOneHot | code/models.py:29-30 | For a one-hot target on class c, the cross entropy is -(l_c - logsumexp(l)). |
| Objective.CrossEntropyLinearInTarget | code/models.py:13-30 | The cross entropy is linear in its (arbitrary, not necessarily one-hot) target: CE(a + c·b) = CE(a) + c·CE(b). |
| Objective.LossOfOneHotTargets | code/models.py:29-30 | With one-hot targets, the batch mean of the cross entropies is the mean negative log-likelihood of the target classes. |
| Tables.InsertCorrect | code/models.py:48-51 | Inserting key/value pairs fails exactly when a repeated key carries a different value. On success the table holds exactly the given keys, each with its value. |
| Tables.CreateTableIndices | code/models.py:45-51 | With no values given, the table is built exactly when the keys are distinct. The i-th key then maps to i, and every absent key looks up as -1. |
| Tables.CreateTableWithValues | code/models.py:45-51 | With values given, the table is built exactly when the lengths agree and repeated keys repeat their value. Keys map to their values; absent keys map to -1. |
| LogisticLda.SetupSucceeds | code/models.py:169-189 | Fewer than one iteration is rejected first, then an empty topic list. Otherwise setup succeeds exactly when the topics are distinct, none is '', and the author ids are distinct. |
| LogisticLda.Setup | code/models.py:169-204 | A model that was set up has at least one topic and one iteration. Every topic lookup lies in [-1, K) and every author lookup in [-1, A). |
| LogisticLda.TopicKeysConsistent | code/models.py:179-181 | The keys topics + [''] with values 0..K-1, -1 conflict exactly when the topics repeat or contain ''. |
| LogisticLda.TopicTableCorrect | code/models.py:179-185 | The topic table maps the i-th topic to i, '' to -1 and every unknown string to -1. It is built exactly when the topics are distinct and none is ''. |
| LogisticLda.TopicLookupsInRange | code/models.py:179-185 | Every topic lookup lies in [-1, K). |
| LogisticLda.AuthorLookupsInRange | code/models.py:188-189 | Every author lookup lies in [-1, A). |
| LogisticLda.AuthorTableOfReady | code/models.py:188-189 | The author table maps the a-th configured id to a and every other id to -1. |
| LogisticLda.ResolveAuthorsCorrect | code/models.py:188-212 | A batch fails on an unknown author exactly when one of its raw author ids is not configured. It resolves exactly when every id is configured and the batch does not hold a single item. Each item's index then names its own author id. |
| LogisticLda.Forward | code/models.py:212-238 | The forward pass gives K-column matrices. Every row of probs and probs_biased is a probability distribution. |
| LogisticLda.RunForward | code/models.py:212-238 | The executed gather, belief loop and two softmaxes equal the specification `Prepared` on the current counts. |
| LogisticLda.Step | code/models.py:184-301 | The result of a step is `Outcome` of the state before it. The new counts are `NextCounts` and the new usage `NextUsage`: committed in training, unchanged in evaluation and prediction, and unchanged when the step fails. |
| LogisticLda.Commit | code/models.py:284-290 | The counts become `CommittedCounts` and the usage `UpdatedUsage` of the state before the commits. |
| LogisticLda.StepFailures | code/models.py:189-285 | A step fails with `UnknownAuthor` exactly when some author id of the batch is not configured. It fails with `SingleItemBatch` exactly when the batch is one item of a configured author. A failed step changes neither counts nor usage. |
| LogisticLda.AuthorBeliefIsDistribution | code/models.py:231-242 | The author predictions of prediction mode, with or without the 1e-8 weight floor, are distributions over K topics. |
| LogisticLda.PredictionsInRange | code/models.py:244-253 | The item and author predictions are topic indices in [0, K) and the topic labels lie in [-1, K). Each author index names the item's own author id. |
| LogisticLda.PredictedProbabilitiesBounded | code/models.py:247-251 | item_probability and author_probability lie in [1/K, 1]. |
| LogisticLda.TrainingKeepsUsageDistribution | code/models.py:288-290 | A training step moves the usage mass toward 1, leaving the fraction 1 - B/(m·A) of the gap. A usage that is a distribution stays one when B ≤ m·A. |
| LogisticLda.TrainingKeepsCountsNonNegative | code/models.py:284-285 | A training step on a batch of at most max_items_per_author items keeps every count non-negative. |
| LogisticLda.TrainingLeavesAbsentAuthors | code/models.py:284-285 | A training step leaves the count row of every author without items in the batch unchanged. |
| LogisticLda.TrainingRowMass | code/models.py:284-285 | A training step moves author a's count mass toward m, leaving the fraction 1 - c/m of the gap, where c is the number of a's items in the batch. |
| Belief.BeliefIterate | code/models.py:214-231 | The loop runs exactly `author_topic_iterations` rounds. Its prediction and bias equal the specification functions after that many rounds, and every prediction row is a distribution. |
| Belief.PredictionsAreDistributions | code/models.py:215-231 | The author topic prediction is a distribution in every round, uniform before the first. |
| Belief.EffectiveIsDistribution | code/models.py:219-224 | The prediction fed to digamma, after the label override, is a distribution when labels lie in [-1, K). |
| Belief.DigammaArgumentBounded | code/models.py:227-228 | With a non-negative weight, the digamma argument lies between alpha + count and alpha + count + weight. |
| Belief.LabelledBiasIsFixed | code/models.py:219-228 | When labels are used and an author is labelled, the round's bias comes from the one-hot label, whatever the previous prediction was. |
| Belief.FlatCountsStayUniform | code/models.py:214-231 | With flat counts and no label in use, the prediction stays uniform and the bias is equal across topics. |
| Belief.FlatCountsKeepArgmax | code/models.py:233-234 | Then logits_biased has the same argmax as logits. |
| Belief.LabelFavoursItsTopic | code/models.py:219-228 | With a positive weight, flat counts c with alpha + c > 0, and a digamma increasing on the positive reals, an observed label gives its topic the strictly largest bias. |
| Objective.ExpectedTopics | code/models.py:257 | The regulariser (probs + 1e-6) / (usage + 1e-6) / K has one entry per topic, all positive for non-negative inputs. |
| Objective.RegulariserDefined | code/models.py:257 | usage + 1e-6 > 0 for non-negative usage, so the regulariser's divisor never vanishes. |
| LogisticLda.LossDefined | code/models.py:256-263 | An evaluation or training step on a non-empty batch whose authors resolve succeeds and, against a non-negative usage, reports a loss. |
| Objective.ExpectedTopicsFavourUnderusedTopics | code/models.py:257 | Of two topics an item predicts equally, the more used one gets the smaller regulariser entry. |
| Objective.ExpectedTopicsFlatAtUsage | code/models.py:257 | An item predicting exactly the usage gets the uniform regulariser 1/K. |
| Objective.TargetRow | code/models.py:262 | The target probs_biased + reg · expected_topics is non-negative for a non-negative reg, and positive for a positive reg. |
| Objective.TargetCrossEntropySplits | code/models.py:257-263 | The loss of a target row is the loss against probs_biased plus reg times the loss against the regulariser. |
| Numerics.Softmax | code/models.py:237-238 | Softmax gives positive entries and, for a non-empty row, a probability distribution. |
| Numerics.Argmax | code/models.py:246 | The argmax is an index of a largest entry, the lowest such index. |
| Numerics.ArgmaxShiftInvariant | code/models.py:234-246 | Adding the same amount to every logit does not move the argmax. |
| Numerics.SoftmaxOfConstant | code/models.py:215-231 | The softmax of a constant row is uniform. |
| Numerics.MaxOfDistribution | code/models.py:247-251 | The largest entry of a distribution over n classes lies in [1/n, 1]. |
| Statistics.GlobalStatistics.constructor | code/models.py:192-204 | The counts start as all ones (A × K) and the usage as 1/K for every topic. |
| Statistics.InitialState | code/models.py:192-204 | Each initial count row sums to K, and the initial usage is a distribution. |
| Statistics.GlobalStatistics.Gather | code/models.py:212 | The gathered rows are the count rows of the batch's authors, read before the batch. |
| Statistics.GlobalStatistics.CommitCounts | code/models.py:284-285 | The counts become the old counts plus every item's increment, added to its author's row. |
| Statistics.GlobalStatistics.CommitUsage | code/models.py:288-290 | The usage becomes the old usage plus the sum over items of (probs - usage) / (m · A). |
| Statistics.AbsentAuthorsUnchanged | code/models.py:284-285 | Rows of authors absent from the batch are unchanged by the count commit. |
| Statistics.CommittedCountsClosedForm | code/models.py:212-285 | Entry (a, k) becomes row[a][k] plus the sum of a's biased probabilities, minus one share row[a][k]/m of the pre-batch row for each of a's items. |
| Statistics.CountsMoveTowardTarget | code/models.py:284-285 | If all of a's c items predict p, row a moves toward m·p, leaving the fraction 1 - c/m of the gap. |
| Statistics.CountsRowMass | code/models.py:284-285 | When the biased rows are distributions, row a's mass moves toward m, leaving the fraction 1 - c/m of the gap. |
| Statistics.CountsStayNonNegative | code/models.py:284-285 | The count commit keeps row a non-negative when a has at most m items in the batch. |
| Statistics.UsageMass | code/models.py:288-290 | When the probs rows sum to 1, the usage mass moves toward 1, leaving the fraction 1 - B/scale of the gap. |
| Statistics.UsageStaysDistribution | code/models.py:288-290 | A usage that is a distribution stays one when B ≤ scale. |
| Statistics.UsageMovesTowardTarget | code/models.py:288-290 | If every item predicts p, each usage entry moves toward p[k], leaving the fraction 1 - B/scale of the gap. |

## Left out

- The embedding function (line 176) and the dense layers (lines 207-209 and 233) are not modelled. The logits of a batch are an input of `Step`. `mlp_fn` is outside the modelled core.
- The optimiser (Adam with exponential decay, lines 292-298) and the grouping of the train op (line 301) are not modelled. A training step commits the statistics and reports the loss; it does not update network weights.
- `tf.stop_gradient` (line 262) has no meaning without gradients and is not modelled.
- Summaries (line 265) and the streaming accuracy metrics (lines 269-279) are not modelled. Evaluation mode returns the per-batch argmaxes that the metrics compare with the labels (`authorCountPrediction` and `itemPrediction`).
- Floating-point arithmetic is not modelled. All values are exact reals, and float32 rounding, overflow, infinities and NaN are out of scope. Where the source would compute a NaN or infinite loss (an empty batch, or a usage entry equal to -1e-6), `BatchLoss` returns `None`.
- `exp`, `log` and `digamma` are parameters (`Numerics.Transcendentals`), not computed.
- A batch of one item fails in the source, and the model returns `SingleItemBatch` for it. `tf.squeeze` (line 189) turns its looked-up author id into a scalar, so the gathered counts lose their batch axis. The failure then comes from the `tf.where` of a `[1]` condition against `[K]` rows when author labels are used and K > 1 (line 221), from the argmax over axis 1 (lines 250 and 271), or from the `scatter_add` update shape (line 285). Only the failure itself is modelled, not which of these operations reports it. When the batch also has an unknown author, the model reports `UnknownAuthor`.
- LogisticLda.Step: requires `max_items_per_author != 0` and a non-empty author list in training mode, and so leaves out two degenerate configurations. With no author ids configured, only the empty batch resolves (any other fails at the gather, line 212). On that batch the commits of lines 284-290 divide empty tensors and add nothing, and the loss is NaN. With `max_items_per_author = 0`, an empty batch behaves the same way. A non-empty batch that resolves gets infinite or NaN counts and usage.
- LogisticLda.Setup: when both tables fail to initialise, the topic table's error is reported. The source leaves the order of the two initialisers to the runtime.
- Concurrency and the order of operations inside a step are not modelled. The model reads the statistics as they were before the step, both for the loss and for the commits. That is the intended behaviour, but the source does not guarantee it for the loss. `tf.group` (line 301) adds no control dependency, and nothing orders the read of the usage at line 257 before its `assign_add` at line 289, so the source may compute the loss against the updated usage. Concurrently running steps are not modelled either.
- The gather of an unknown author's index -1 (line 212) is modelled as an error, as the CPU kernel raises one. On a GPU, `tf.gather` returns a zero row instead, which is not modelled.
- The item id fallback (line 245) is modelled as a sequence of -1 values. `item_topic` is the lookup of the item topic strings; no property is stated for it beyond its range.
