# seer / pangloss: dissimilarity matrix, metric MDS structure and the logistic fit

This project models two parts of seer in Dafny.

**Population structure (`src/panglossStruct.cpp`).** `dissimiliarityMatrix` computes the Manhattan distance (`distanceFunction`) between every pair of rows of a 0/1 presence matrix. It visits only the upper triangle. Each pair is handed to a worker (`threadDistance`), and the result is a `distance_element` record queued in a FIFO that holds at most `threads` pending records. When the FIFO is full, its oldest record is written into both mirrored cells before the next pair is queued. Whatever is left is drained at the end. The model reads each row as the vector the code intends; as written, the row-to-column-vector copies throw under armadillo's size checks for any population with two or more columns (see "## Left out"). `metricMDS` squares that matrix, double-centres it with J = I - (1/n)·11ᵀ and takes the leading columns of the column-reversed, root-scaled eigenvectors.

**Per-k-mer association test (`src/seerBinaryAssoc.cpp`).** `logisticTest` builds the training columns: the k-mer's presence column, optionally followed by the MDS covariates. `doLogit` prepends an intercept column and tries BFGS. If BFGS throws, `doLogit` tags the k-mer `bfgs-fail` and runs `newtonRaphson`. That keeps a list of iterates and stops on the change in coefficient 1. If its failure test fires, it tags `nr-fail` and calls itself again with Firth's correction. That Firth stage is meant to tag `firth-fail` when it fails too. As written, its update throws on any design with two or more samples (see "## Left out"), so the model follows the intended control flow there. Each successful path writes `beta`, `standard_error` and `p_val` for coefficient 1. `varCovarMat` fills the Fisher information over its upper triangle, mirrors it and inverts it.

Files:
- `wrappers.dfy`: `Option` and `Result`.
- `matrices.dfy`, module `Matrices`: square and symmetric matrices, the dot product and columns, shared by the two parts.
- `distance.dfy`, module `Distance`: the distance, the threaded matrix fill and the sequential reference matrix it is proved equal to.
- `mds.dfy`, module `Mds`: steps 1 to 5 of `metricMDS`, with the eigen-decomposition and the square root as parameters.
- `logit.dfy`, module `Logit`: the design matrix, the starting points, the information matrix, the Newton-Raphson loop, the fallback cascade and the `Kmer` writes.

Floating-point operations whose values the code does not control are uninterpreted functions, gathered in the `Numerics` datatype. Examples are the sigmoid, `log`, `pow(., 0.5)`, `inv_covar`, `normalPval`, dlib's BFGS and the Firth step. Everything else is exact: matrix products, the information sums and the plain Newton-Raphson update are over `real`.

## Model

| member | source | states |
|---|---|---|
| Distance.DistanceFunction | src/panglossStruct.cpp:110-113 | No single position differs by more than the whole distance. Zero iff equal, symmetry and the Hamming count are DistanceZeroIff, DistanceSymmetric and DistanceIsHamming. |
| Distance.DistanceZeroIff | src/panglossStruct.cpp:110-113 | The distance between two rows is zero exactly when the rows are equal. |
| Distance.DistanceSymmetric | src/panglossStruct.cpp:110-113 | The distance does not depend on the order of the two rows. |
| Distance.DistanceIsHamming | src/panglossStruct.cpp:110-113 | On 0/1 rows the distance is the number of positions where the rows differ. |
| Distance.ThreadDistance | src/panglossStruct.cpp:99-108 | The record carries row i, column j and the distance of the two rows. That distance is zero iff the rows are equal, and on 0/1 rows it is their Hamming count. |
| Distance.ReferenceMatrix | src/panglossStruct.cpp:57-70 | The sequential (NO_THREAD) matrix is n-by-n, has a zero diagonal and is symmetric. |
| Distance.ReferenceMatrixIsDistance | src/panglossStruct.cpp:62-70 | Every cell of the sequential matrix, in either triangle, is the distance between its two rows. |
| Distance.ReferenceMatrixIsHamming | src/panglossStruct.cpp:62-70 | For a 0/1 population, every cell counts the columns where its two rows differ. |
| Distance.SubmissionOrderCovers | src/panglossStruct.cpp:57-61 | The nested loops issue a record for every pair r < c. |
| Distance.RowSubmissionsLength | src/panglossStruct.cpp:60-61 | Row r issues one record for each column after r, so j - r - 1 records up to column j. |
| Distance.SubmissionCount | src/panglossStruct.cpp:57-61 | n rows issue n(n-1)/2 records in all. |
| Distance.DrainFront | src/panglossStruct.cpp:72-78 | Pops the oldest pending record and writes its distance into both mirrored cells. Every earlier completed record stays written, and the zeroed diagonal stays zero. |
| Distance.Schedule | src/panglossStruct.cpp:72-81 | When `threads` records are pending, the oldest is drained first. The new record then joins the back of the queue. Afterwards completed followed by pending is still the submission log, and the queue holds min(submitted, threads) records. The running maximum `peak` never decreases, covers the queue and never exceeds `threads`. |
| Distance.ZeroDiagonal | src/panglossStruct.cpp:62-64 | Cell (i, i) becomes zero and every completed record stays written. |
| Distance.DrainAll | src/panglossStruct.cpp:87-94 | The final drain writes every pending record, oldest first. The completed log becomes the previous log followed by the queue. |
| Distance.AllPairsWritten | src/panglossStruct.cpp:56-94 | Once every issued record is written and the diagonal is zero, each cell equals the sequential matrix. |
| Distance.ScheduleRow | src/panglossStruct.cpp:59-84 | One outer pass zeroes the diagonal cell and issues row i's pairs in order. The loop state is then the one for rows 0..i. |
| Distance.ScheduleRows | src/panglossStruct.cpp:57-85 | After the nested loops, the submission log is every upper-triangle pair in loop order. The FIFO invariant holds, and every completed record is written. |
| Distance.DrainRemaining | src/panglossStruct.cpp:87-96 | After the final drain the matrix equals the sequential one. Records completed in submission order, and at most min(pairs, threads) were ever pending. |
| Distance.DissimilarityMatrix | src/panglossStruct.cpp:47-97 | For every threads >= 1, the result is a fresh n-by-n matrix equal to the sequential matrix. Records complete in the order they were submitted, and at most `threads` are pending at once. |
| Mds.Square | src/panglossStruct.cpp:24 | P keeps the shape of the distance matrix. Its entries are non-negative and zero exactly where the distance is zero. It is symmetric and has a zero diagonal when the distance matrix does. |
| Mds.Centring | src/panglossStruct.cpp:27-28 | J is n-by-n and symmetric. |
| Mds.CentringRowSumsToZero | src/panglossStruct.cpp:27-28 | Every row of J sums to zero. |
| Mds.DoubleCentre | src/panglossStruct.cpp:31 | B = ((-0.5·J)·P)·J is n-by-n. |
| Mds.MatMulDiag | src/panglossStruct.cpp:41 | Multiplying by diagmat(s) scales column c by s[c]. |
| Mds.Embedding | src/panglossStruct.cpp:41-43 | fliplr(eigvec·diagmat(roots)).cols(0, d-1) has n rows and d columns. Which column each is, is EmbeddingColumns. |
| Mds.EmbeddingColumns | src/panglossStruct.cpp:41-43 | The embedding has n rows and d columns. Column c is eigenvector n-1-c scaled by the root of its eigenvalue. |
| Mds.EigenEmbedding | src/panglossStruct.cpp:37-43 | Given eig_sym's ascending eigenvalues, the matrix built from its output embeds B. Column c is eigenvector n-1-c scaled by its root, and the columns' eigenvalues are in descending order, largest first. |
| Mds.EmbedFromEigen | src/panglossStruct.cpp:37-43 | Given ascending eigenvalues, steps 4 and 5 give a matrix that embeds B in d dimensions, with the largest eigenvalue's column first and the rest in descending order. |
| Mds.CentredDistances | src/panglossStruct.cpp:21-31 | For every threads >= 1, steps 1 to 3 give exactly B for the population: the double-centred square of the sequential distance matrix. |
| Mds.MetricMDS | src/panglossStruct.cpp:10-44 | Succeeds exactly when 1 <= dimensions <= n. Given eig_sym's ascending eigenvalues, it then returns n rows and `dimensions` columns. Column c is eigenvector n-1-c of B scaled by the root of its eigenvalue, and the columns are in descending eigenvalue order. |
| Logit.Kmer.constructor | src/seerBinaryAssoc.cpp:14 | A k-mer holds its presence column and starts with no comments. |
| Logit.Design | src/seerBinaryAssoc.cpp:28 | The design has one more column than the training matrix. Column 0 is all ones and the later columns are the training columns in order. |
| Logit.ColumnsOf | src/seerBinaryAssoc.cpp:22 | Reads the row-major covariate matrix as d columns: column c, sample r is entry (r, c). |
| Logit.CovariateDesign | src/seerBinaryAssoc.cpp:22-28 | With covariates the design is the intercept, then the k-mer column, then one column per MDS dimension, column 2 + c holding dimension c. |
| Logit.BfgsStart | src/seerBinaryAssoc.cpp:29-36 | The BFGS start has one entry per design column: the log-odds of mean(y) at index 0 and 1 at every later index. |
| Logit.StartingPoint | src/seerBinaryAssoc.cpp:29-36 | The fill loop produces exactly the BFGS start. |
| Logit.NrStart | src/seerBinaryAssoc.cpp:91-92 | The Newton-Raphson start has the same log-odds at index 0 and 0 at every later index. |
| Logit.StartsShareIntercept | src/seerBinaryAssoc.cpp:91-92 | Both starts agree on the intercept and differ at every later index. |
| Logit.Probs | src/seerBinaryAssoc.cpp:195-201 | predictLogitProbs gives one probability per sample. |
| Logit.Weights | src/seerBinaryAssoc.cpp:102 | One weight p(1 - p) per sample, between 0 and 1/4 whenever p is a probability. |
| Logit.WeightedDot | src/seerBinaryAssoc.cpp:183 | accu(w % a % b) is non-negative when a == b and every weight is non-negative, so the information matrix has a non-negative diagonal. Symmetry in a and b is WeightedDotSymmetric. |
| Logit.WeightedDotSymmetric | src/seerBinaryAssoc.cpp:183-186 | accu(w % a % b) does not depend on the order of a and b, so the mirrored cell equals the computed one. |
| Logit.Information | src/seerBinaryAssoc.cpp:177-189 | I is square with one row per design column. |
| Logit.InformationSymmetric | src/seerBinaryAssoc.cpp:177-189 | I is symmetric. |
| Logit.Covariance | src/seerBinaryAssoc.cpp:102 | The covariance at b is square with one row per design column. |
| Logit.FillRow | src/seerBinaryAssoc.cpp:181-188 | One outer pass writes cell (i, j) for every j >= i and mirrors it to (j, i). Earlier rows and columns keep their values. |
| Logit.VarCovarMat | src/seerBinaryAssoc.cpp:163-192 | The upper-triangle fill with mirroring produces the whole information matrix. Its result is inv_covar of it. |
| Logit.Score | src/seerBinaryAssoc.cpp:119 | Xᵀ(y - p) has one entry per design column, and every entry is zero when the predictions equal the response. |
| Logit.NrUpdate | src/seerBinaryAssoc.cpp:101-120 | A pass maps a coefficient vector to one of the same length. |
| Logit.NrFixedPoint | src/seerBinaryAssoc.cpp:119 | Where the predicted probabilities equal the response, a plain pass leaves the coefficients unchanged. |
| Logit.NrStep | src/seerBinaryAssoc.cpp:98-121 | A pass is defined on, and preserves, vectors of the design's width. |
| Logit.Converged | src/seerBinaryAssoc.cpp:123 | The stop rule can hold only for a positive convergence_limit, and holds whenever the limit is positive and coefficient 1 did not move. Where it stops the loop is IteratesStopRule. |
| Logit.Passes | src/seerBinaryAssoc.cpp:96-127 | At most `passes` iterates are pushed, and at least one when any pass may run. |
| Logit.IteratesOf | src/seerBinaryAssoc.cpp:94-127 | The list starts with the start vector and has between 1 and passes + 1 entries of its width. |
| Logit.Iterates | src/seerBinaryAssoc.cpp:91-127 | parameter_iterations starts at the Newton-Raphson start and ends with 2 to max_nr_iterations + 1 entries. |
| Logit.IteratesChain | src/seerBinaryAssoc.cpp:96-121 | Each iterate after the first is one pass from the one before. |
| Logit.IteratesNoEarlyStop | src/seerBinaryAssoc.cpp:123-126 | No pass before the last one met the stop rule. |
| Logit.IteratesEarlyStopConverged | src/seerBinaryAssoc.cpp:123-126 | A list that stops before every pass has run ends on a pass that met the stop rule. |
| Logit.IteratesStopRule | src/seerBinaryAssoc.cpp:96-127 | Only the last pass may meet the stop rule, and a list of at most max_nr_iterations entries ends on one that does. |
| Logit.IterateIsUpdate | src/seerBinaryAssoc.cpp:98-121 | Each entry of parameter_iterations after the start is the Newton-Raphson update of the entry before. |
| Logit.Pass | src/seerBinaryAssoc.cpp:98-126 | One pass pushes step(last iterate) and takes the covariance at the last iterate. It returns whether that pass met the stop rule, |b1(1) - b0(1)| < convergence_limit. |
| Logit.RunPasses | src/seerBinaryAssoc.cpp:94-127 | The loop leaves exactly the iterate list of the stop rule. var_covar_mat is the covariance at the second-to-last iterate. |
| Logit.WaldFit | src/seerBinaryAssoc.cpp:147-153 | The fit is beta, se = pow(variance, 0.5) and the p-value of |beta| / se. |
| Logit.StageFit | src/seerBinaryAssoc.cpp:145-153 | The recorded beta is coefficient 1 of the last iterate. Its standard error is the root of cell (1, 1) of the covariance at the iterate before, the one the last pass computed var_covar_mat at. Its p-value is that of |beta| / se. StageConverged writes it. |
| Logit.NrStage | src/seerBinaryAssoc.cpp:133-159 | A Firth stage gives a fit with no tag or `firth-fail` with no fit. A plain stage gives no tag, `nr-fail`, or `nr-fail, firth-fail`, and has no fit exactly in the last case. |
| Logit.LiteralFailureFollowsConvergence | src/seerBinaryAssoc.cpp:133 | The literal test fires only on a list whose last pass met the stop rule. |
| Logit.LiteralTestMissesExhaustion | src/seerBinaryAssoc.cpp:133 | When no pass meets the stop rule, the list has max_nr_iterations + 1 entries. The stage then records the last iterate as a fit, with no tag. |
| Logit.ExhaustedIff | src/seerBinaryAssoc.cpp:96-133 | "Every pass ran and the last did not converge" holds exactly when no pass converged. |
| Logit.IntendedNrStage | src/seerBinaryAssoc.cpp:133-144 | With the intended test, a stage records a fit exactly when one of its passes converged. Otherwise it tags and falls back as the code does. |
| Logit.LogitFit | src/seerBinaryAssoc.cpp:26-77 | The tags are always a prefix of `bfgs-fail, nr-fail, firth-fail`, and there is no fit exactly when all three were added. |
| Logit.RecordWald | src/seerBinaryAssoc.cpp:147-153 | Writes beta, its standard error and p-value as WaldFit gives them and adds no comment. |
| Logit.StageFailed | src/seerBinaryAssoc.cpp:133-144 | A failed plain stage appends `nr-fail` and runs the Firth stage. A failed Firth stage appends `firth-fail` and leaves beta, se and p-value untouched. |
| Logit.StageConverged | src/seerBinaryAssoc.cpp:145-159 | A stage the test lets through writes the last iterate's coefficient 1, with the covariance of its pass. |
| Logit.NewtonRaphson | src/seerBinaryAssoc.cpp:79-160 | The k-mer's comments gain the stage's tags. Its statistics are the stage's fit, or are left untouched when there is none. |
| Logit.DoLogit | src/seerBinaryAssoc.cpp:26-77 | The k-mer records LogitFit: the BFGS fit with the covariance at its maximiser, or `bfgs-fail` followed by the Newton-Raphson cascade. |
| Logit.LogisticTest | src/seerBinaryAssoc.cpp:11-16 | The fit without covariates uses the k-mer column alone. |
| Logit.LogisticTestWithCovariates | src/seerBinaryAssoc.cpp:19-24 | The fit with covariates uses the k-mer column followed by the MDS columns. |

## Left out

- Floating-point arithmetic is not modelled. The following are uninterpreted fields of `Numerics`, applied coordinate by coordinate:
  - the log-odds of mean(y);
  - the sigmoid in `predictLogitProbs`;
  - `pow(., 0.5)`, the division in the Wald statistic and `normalPval`;
  - `inv_covar`.
  The information sums and the plain Newton-Raphson update are exact over `real`.
- dlib's `find_max` and the likelihood and gradient it maximises are not part of this model. BFGS is reduced to whether it throws and, when it does not, the coordinates of the maximiser it leaves in `starting_point`.
- The Firth correction numerics (src/seerBinaryAssoc.cpp:107-115) are a single oracle, `firthStep`. The code multiplies two column vectors with `*` where `%` seems meant, and omits Xᵀ in the update; neither is modelled.
- Logit.NrStage: the Firth stage follows the intended control flow, not the code as written. As written, line 107 multiplies two n-by-1 vectors, and line 115 multiplies the p-by-p covariance by an n-vector. Armadillo's size checks make the first throw for any n >= 2, and the second unless p == n. So the Firth pass throws before the test at line 133, and `firth-fail` (line 142) is never added. The exception leaves `newtonRaphson` from inside doLogit's `catch` handler (lines 72-76) and escapes doLogit. The k-mer keeps `bfgs-fail, nr-fail` and no statistics. Logit.StageFailed, Logit.NewtonRaphson, Logit.LogitFit and Logit.DoLogit inherit this: their Firth path is the intended one.
- `eig_sym` and `sqrt(eigval)` are parameters of `MetricMDS`. The only property of eig_sym assumed is that its eigenvalues come back in ascending order (`Ascending`). The NaN roots of negative eigenvalues are not modelled.
- Concurrency is not modelled. Each `std::async` task's result is computed when it is queued, and `future::get` is a plain read. The `std::cref` to a loop-local row is not modelled.
- The NO_THREAD build is used only as the sequential reference (`ReferenceMatrix`). As written it does not compile: its final drain names a queue it never declares.
- Distance.DissimilarityMatrix: each row is modelled as the vector the code intends, and the conversion of a row into a column vector is not modelled. As written, lines 59 and 80 copy `inMat.row(i)` and `inMat.row(j)`, which are 1-by-m, into `arma::vec`, and line 69 binds `inMat.row(j)` to a `const arma::vec&`. With armadillo's size checks on (the condition the `Logit.NrStage` line above relies on), a 1-by-m row does not fit a column vector for any m >= 2, so these copies throw. `dissimiliarityMatrix`, and with it `metricMDS`, then throws for every population with two or more columns. Distance.ThreadDistance and Mds.MetricMDS inherit this.
- DissimilarityMatrix requires threads >= 1. With 0 threads, the first off-diagonal pair calls `front()` on an empty queue.
- Logit.NewtonRaphson and Logit.LogitFit require max_nr_iterations >= 1. The constant and `convergence_limit` come from headers that are not part of this model, and are parameters (`Settings`).
- The exceptions that `inv_covar` or `varCovarMat` could raise inside the BFGS `try` block are not modelled. These would come after `k.beta` is already written, and the model lets only BFGS itself throw. `inv_covar` failing in `newtonRaphson` is not modelled either.
- `SEER_DEBUG` printing is not modelled.
- The `Kmer` class (header not part of this model) is reduced to its presence column, the three written statistics and the comment list.
- Shape mismatches that make `join_rows` throw are preconditions: the covariate rows must match the samples.
- An MDS matrix with no rows is read as having no columns.
- Distances are stored as integers. The code stores them in a double matrix, where the values are the same small integers.
- Logit.Probs: states only the length. Each value is the sigmoid oracle applied to the sample's linear predictor.
- Logit.Information: states only the shape here. Symmetry is InformationSymmetric; the cells are the weighted sums by definition.
- Logit.Covariance: states only the shape. The cells are `inv_covar` of the information matrix.
- Logit.NrUpdate: states only the length. The plain update is exact, and the Firth update is the oracle.
- Mds.DoubleCentre: states only the shape of B. CentredDistances ties it to the population.
- Mds.Centring: states shape and symmetry. The zero row sums are CentringRowSumsToZero.
- Logit.RunPasses: on the converged pass it returns from inside the loop where the code breaks out of it. The two are equivalent here because nothing follows the loop.
- Distance.ScheduleRow: the inner loop's iteration j == i, which only zeroes the diagonal cell, is taken before the loop.

## Findings

| source | as written | input that shows it | evidently intended | confidence | as-written member | corrected member |
|---|---|---|---|---|---|---|
| src/seerBinaryAssoc.cpp:133 | The stage is failed when `parameter_iterations.size() == max_nr_iterations`. The list holds the start plus one entry per pass, so a stage in which every pass runs without meeting the stop rule ends with max_nr_iterations + 1 entries and takes the success branch. | max_nr_iterations = 1 and a first pass that changes coefficient 1 by at least `convergence_limit`: the list has 2 entries, the test is false, and the unconverged iterate is written as beta with no `nr-fail` tag. | Fail exactly when all max_nr_iterations passes ran and the last one did not converge. | not executed | Logit.LiteralTestMissesExhaustion | Logit.IntendedNrStage |
| src/seerBinaryAssoc.cpp:133 | The same test fires only when the list has max_nr_iterations entries, that is when pass max_nr_iterations - 1 met the stop rule. A converged stage is therefore tagged failed and rerun. | max_nr_iterations = 2 and a first pass that changes coefficient 1 by less than `convergence_limit`: the list has 2 entries, so the stage is tagged `nr-fail` although it converged. | A stage whose pass converged records its fit. | not executed | Logit.LiteralFailureFollowsConvergence | Logit.IntendedNrStage |

The methods (`NewtonRaphson`, `StageFailed`, `StageConverged`, `DoLogit`) model the failure test at line 133 as written, through `NrStage`. Their Firth path is the intended one (see "## Left out"). `IntendedNrStage` is the corrected stage. Its contract and `ExhaustedIff` prove that it records a fit exactly when some pass converged.
