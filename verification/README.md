# A verified model of the gogaghe store

gogaghe keeps items in memory under a byte limit and answers five kinds of search over them: BM25, TF-IDF,
character n-grams, latent semantic analysis and dense vectors, alone or fused. This project states in Dafny what
each of these parts is for and proves it of a model that follows the Go code branch by branch. Numbers are exact
reals; the mathematical library enters only through the laws it obeys (`core/Oracles.dfy`). `dafny verify
dfyconfig.toml` checks everything.

How the pieces fit:

- `core/` — finite sums (also over maps) and inner products with Cauchy-Schwarz, rankings (`Ranked` is the only list with the
  given scores in score order, ties by key), `sort.Slice` as a stable insertion sort seen only through its
  contract, items, and text splitting over an abstract alphabet.
- `index/` — inverted indexes. `Indexes(inv, docs)` says that the postings are exactly what a scan of the
  documents counts. The three index classes keep it, and their `Search` methods are proved equal to scoring all
  documents by brute force. `TypoTolerance` has the q-gram lemma, `Runs` whole sequences of index operations.
- `lsa/` — matrix products, modified Gram-Schmidt and Jacobi rotations on mutable arrays, each tied to a function
  on matrices; the power iterations and the truncated decomposition built from them; and the index on top.
- `vector/` — cosine similarity, and the worker pool as a step relation over any number of workers.
- `engine/` — the store with its byte counter, the same operations as interleaved steps under the lock, the heap,
  and eviction.
- `server/` — rank fusion, hybrid requests, answers with access counting, the service as a whole, and its histories:
  what each call does to store and indexes, and why a key an index still holds is no longer live.

Loops over Go maps take the entries in an arbitrary order. Where such a loop only adds up or lists the entries of
a map, the per-entry computation is a map expression and the loop is one of the generic ones in `core/`.

## Findings

- Eviction: the code's priority falls as an item is read more often, so of two equally costly items the one in
  more frequent use is evicted first. The repository's README.md:45 and README.md:194 say the opposite. The code
  is followed; `Eviction.AccessLowersPriority` says exactly when it happens.
- BM25: the constructor accepts every positive `b`, but the count of a matching token stays strictly between 0
  and k1 + 1, whatever is stored, if and only if `b <= 1` (`Bm25.WithinIffBounded`; `Bm25.ShortBesideLong` builds
  two texts that break it for any larger `b`).
- BM25: every returned document scores above zero, whatever is stored and asked, if and only if `k1 (b - 1) <= 1`
  (`Bm25.PositiveIffBounded`). At k1 = 1.5 this fails from b > 5/3 on: a short document among long ones then scores
  below zero for a word it contains.
- BM25: a rebuild from no items leaves the average document length as it was; the invariant claims it only while
  there are documents.
- TF-IDF: a rebuild leaves out documents without tokens while incremental indexing counts them
  (`Runs.TfidfRunAndRebuild` gives the exact difference).
- BM25: while denominators are positive, more occurrences of a token count more if and only if `1 - b + b dl / avg`
  is positive (`Bm25.MoreOccurrencesCountMore` has the general case): always for `b <= 1`, but for larger `b` not in
  documents that are short enough.
- LSA: a search for the very text of a document does not find it when its document vector is zero, and does in every
  other case (`Lsa.OwnTextFound`).
- Gram-Schmidt gives orthonormal columns if and only if no pivot is negligible (`GramSchmidt.OrthonormalIff`);
  linearly dependent columns are inputs on which it does not (`Dependence.DependentColumns`).
- LSA: a direction whose singular value lies between zero and 1e-12 is dropped. Inner products of embeddings are
  kept if and only if there is none (`Lsa.EmbeddingsKeepInner`), and so is the projection (`Svd.ReconstructsIff`);
  what is lost is stated exactly for every input (`Lsa.EmbeddingsInner`, `Svd.Reconstruction`, `Svd.MissingInAll`).
- N-grams: the bound of n lost n-grams per edit is sharp for every n and every number of edits (`TypoTolerance.BoundIsSharp`).

## Model

| member | source | states |
|---|---|---|
| Matrix.MatMul | internal/store/lsa.go:327-341 | skipping zero entries, the loops compute the matrix product |
| Matrix.MatMulAT | internal/store/lsa.go:343-360 | the loops compute the product with the transpose, without forming it |
| Matrix.MatMulQT | internal/store/lsa.go:362-380 | likewise for the transpose of the basis |
| GramSchmidt.QrDecomp | internal/store/lsa.go:382-411 | the in-place sweep over columns equals the recursive orthonormalisation |
| GramSchmidt.QrFactors | internal/store/lsa.go:389-409 | A = Q R with R upper triangular, for every input, degenerate ones included |
| GramSchmidt.OrthonormalIff | internal/store/lsa.go:389-409 | the columns of Q are orthonormal if and only if every pivot norm exceeds the tolerance |
| Dependence.DependentColumns | internal/store/lsa.go:389-409 | whenever some combination of the input columns vanishes, some pivot is negligible and the result is not orthonormal |
| Dependence.ZeroColumn | internal/store/lsa.go:394-399 | in particular for an input with a zero column |
| Rotation.AngleAnnihilates | internal/store/lsa.go:446-448 | the chosen angle is a rotation that clears the pivot entry |
| Rotation.ConjugateIsTurned | internal/store/lsa.go:450-465 | the entry-wise update of A is the two-sided rotation |
| Rotation.EnergyDrops | internal/store/lsa.go:450-465 | a rotation lowers the off-diagonal energy by exactly twice the squared pivot |
| Rotation.EnergyShrinks | internal/store/lsa.go:426-465 | the pivot being largest, energy shrinks by the factor 1 - 2/(k(k-1)), which is not negative |
| Jacobi.FindPivot | internal/store/lsa.go:426-437 | the scan finds a largest off-diagonal entry |
| Jacobi.RotateA | internal/store/lsa.go:450-465 | the in-place update of A, aliasing of rows and columns included, is the conjugation |
| Jacobi.RotateV | internal/store/lsa.go:467-473 | the in-place update of V turns its columns |
| Jacobi.RunSymmetric | internal/store/lsa.go:425-474 | A stays symmetric through every run of rotations |
| Jacobi.RunOrthogonal | internal/store/lsa.go:467-473 | V stays orthogonal through every run |
| Jacobi.RunSimilar | internal/store/lsa.go:425-474 | M V = V A after every run |
| Jacobi.RunTrace | internal/store/lsa.go:450-453 | the trace never changes |
| Jacobi.RunEnergy | internal/store/lsa.go:425-474 | after t rotations the off-diagonal energy is at most rate^t times its start |
| Jacobi.JacobiEigen | internal/store/lsa.go:414-510 | values descend, vectors are orthogonal, value i is the quadratic form of vector i, values sum to the trace; at most 50 rotations, fewer only if every off-diagonal entry is below the tolerance |
| Residuals.ResidualEnergy | internal/store/lsa.go:414-510 | the squared residuals of the returned pairs add up to exactly the remaining off-diagonal energy |
| Residuals.ApproximateEigenPairs | internal/store/lsa.go:414-510 | so they are eigenpairs up to errors whose squares sum to at most rate^t times the starting energy |
| Svd.QuadraticForm | internal/store/lsa.go:279-290 | the quadratic form of B Bt is a squared length: B Bt is positive semidefinite |
| Svd.RootsAreSingularValues | internal/store/lsa.go:295-301 | clipping at zero loses nothing; the roots descend and their squares sum to the squared Frobenius norm of B |
| Sampling.BasisSpansPowers | internal/store/lsa.go:261-274 | for every input, (A At)^p A times the test matrix, never orthonormalised, is the basis used times an upper triangular matrix with a positive diagonal |
| Sampling.SampleRange | internal/store/lsa.go:261-274 | the power iteration loop, with an orthonormalisation before every step |
| Svd.Bessel | internal/store/lsa.go:276-277 | coordinates on an orthonormal basis are no longer than the vector |
| Svd.SingularEnergy | internal/store/lsa.go:273-301 | the squared singular values sum to the energy of Qt A, at most that of A when Q is orthonormal |
| Svd.LeftOrthonormal | internal/store/lsa.go:303-304 | the columns of U are orthonormal if and only if those of Q are |
| Svd.SampledLeftOrthonormal | internal/store/lsa.go:261-304 | hence if and only if no pivot of the last orthonormalisation is negligible, for every matrix and every test matrix |
| Svd.RightUnit | internal/store/lsa.go:306-323 | a column of V has length one, or is zero for a negligible singular value |
| Svd.Reconstruction | internal/store/lsa.go:303-323 | for every input, an entry of U S Vt is that of the projection Q Qt A less the sum of U times image over the dropped directions |
| Svd.MissingEnergy | internal/store/lsa.go:303-323 | with orthonormal Q the missing part of a column is exactly as long as what the dropped directions carry of it |
| Svd.MissingInAll | internal/store/lsa.go:303-323 | and over all columns the squared error is the sum of the squares of the dropped singular values |
| Svd.ReconstructsIff | internal/store/lsa.go:303-323 | with orthonormal Q, U S Vt is the projection if and only if no positive singular value is at most 1e-12 |
| Svd.ComputeTruncatedSVD | internal/store/lsa.go:250-325 | the whole decomposition, for every test matrix, on a basis that factors (A At)^p A times it |
| Latent.WeighQuery | internal/store/lsa.go:186-195 | the query vector holds the weight of each known query term and zero elsewhere |
| Latent.ProjectOn | internal/store/lsa.go:201-208 | one latent coordinate, skipping zero entries |
| Latent.SearchModel | internal/store/lsa.go:177-246 | the search loops stay in bounds and rank exactly the documents of positive cosine |
| Latent.FoundBounds | internal/store/lsa.go:212-233 | every returned score is in (0, 1], by Cauchy-Schwarz |
| Latent.FoundScore | internal/store/lsa.go:212-233 | a score times the length of the projected query is the inner product of that query and the document vector |
| Latent.FoundWhen | internal/store/lsa.go:212-233 | without a limit exactly the documents of positive inner product are found |
| Lsa.FillMatrix | internal/store/lsa.go:99-117 | entry (term, document) is the TF-IDF weight over all items |
| Lsa.EmbedDocument | internal/store/lsa.go:134-149 | a document vector is its row of V S, divided by its length unless that is zero |
| Lsa.AtUnitLengthIs | internal/store/lsa.go:142-147 | document vectors have length one or zero, and times the length of the embedding are the embedding |
| Lsa.EmbeddingsInner | internal/store/lsa.go:132-141 | before scaling, for every input, the inner product of two embeddings is that of the projected documents less what the dropped directions carry of both |
| Lsa.EmbeddingsKeepInner | internal/store/lsa.go:132-141 | all inner products are kept if and only if no positive singular value is at most 1e-12 |
| Lsa.Compute | internal/store/lsa.go:55-162 | term and key tables are mutually inverse, k is at most both sizes, shapes fit; without tokens everything is reset |
| Lsa.FoldedEntry | internal/store/lsa.go:122-130 | folding in: a column of the matrix, seen along a column of U and times its sigmaInv, is its entry of V |
| Lsa.CoordinateFolds | internal/store/lsa.go:201-210 | of the index: a coordinate of a document's own text, projected like a query, is its entry of V |
| Lsa.OwnTextFound | internal/store/lsa.go:164-246 | an unlimited search for the text of a document finds it exactly when its document vector has any length |
| Lsa.DrawsDistinct | internal/store/lsa.go:253-259 | every entry of the test matrix has a draw of its own, row after row |
| Lsa.LSAIndex.constructor | internal/store/lsa.go:37-47 | a new index is empty; a non-positive dimension becomes 64 |
| Lsa.LSAIndex.Rebuild | internal/store/lsa.go:50-150 | every rebuild ends in such a coherent state, computed from the items with four power iterations; documents fold in to their rows of V |
| Lsa.LSAIndex.Search | internal/store/lsa.go:164-246 | the early returns and the latent search |
| Lsa.ResultBounds | internal/store/lsa.go:212-233 | results are documents of the last rebuild with scores in (0, 1] |
| Extraction.ExtractNgrams | internal/store/ngram.go:189-223 | the loops list the n-grams word by word; short words are kept whole, a size of zero or less means 3 |
| Extraction.WindowAt | internal/store/ngram.go:217-219 | window i holds the n characters from position i, and there are length - n + 1 |
| Extraction.GramsAre | internal/store/ngram.go:207-220 | a word of n characters or more gives its windows, a shorter one itself |
| Text.WordsAreTokens | internal/store/ngram.go:194-204 | blanking and splitting at white space finds the same words as the tokenizer |
| Text.SplitAt | internal/store/ngram.go:194-204 | a character that is not kept separates the words before it from those after it, and nothing else happens there |
| Text.SingleWord | internal/store/ngram.go:194-204 | a run of kept characters is one word |
| Text.CaseIrrelevant | internal/store/ngram.go:190-191 | texts that differ only in case have the same words |
| Similarity.MetricsAre | internal/store/ngram.go:149-165 | Dice times the sum of the sizes is twice the shared n-grams; Jaccard times the union, and Overlap times the smaller size, are the shared ones |
| Similarity.MetricsRelated | internal/store/ngram.go:149-165 | Dice is 2 J / (1 + J); Overlap is one if and only if all n-grams of one side are shared |
| Similarity.MetricsOrdered | internal/store/ngram.go:149-165 | 0 < Jaccard <= Dice <= Overlap <= 1 before rounding |
| Similarity.SameOrder | internal/store/ngram.go:149-165 | Jaccard and Dice order the documents for a query alike |
| Similarity.RoundMonotone | internal/store/ngram.go:170 | rounding to four decimals never inverts an order |
| Similarity.RoundedIs | internal/store/ngram.go:170 | a rounded score has four decimals and is the nearest such number, ties going up |
| Similarity.RoundNear | internal/store/ngram.go:170 | rounding moves a score by at most half a unit of the last decimal |
| Ngram.CountShared | internal/store/ngram.go:116-136 | the shared counts are the sizes of the multiset intersections |
| Ngram.CommonBounds | internal/store/ngram.go:123-136 | a document is counted if and only if it shares an n-gram, and never beyond either size |
| Ngram.CommonIs | internal/store/ngram.go:123-136 | the shared count gives the size of the multiset union, and equals a size exactly when that side is contained in the other |
| Ngram.FullOverlap | internal/store/ngram.go:157-161 | Overlap is one if and only if one multiset of n-grams contains the other |
| Ngram.ResultScores | internal/store/ngram.go:142-173 | every result scores its measure, by these products over multisets, rounded to four decimals |
| Ngram.SharersFound | internal/store/ngram.go:110-186 | without a limit, the results are exactly the documents that share an n-gram |
| Ngram.TableIsSimilarities | internal/store/ngram.go:142-173 | no counted document has a zero score, so none is left out |
| Ngram.RoundingKeepsOrder | internal/store/ngram.go:167-180 | results in the opposite order of their unrounded scores have equal rounded ones |
| Ngram.NgramIndex.constructor | internal/store/ngram.go:21-31 | a new index is empty; a size of zero or less becomes 3 |
| Ngram.NgramIndex.RemoveDocument | internal/store/ngram.go:77-93 | exactly the postings of the document go; counts follow |
| Ngram.NgramIndex.IndexDocument | internal/store/ngram.go:45-74 | the new version replaces the old one; a value without n-grams is not kept |
| Ngram.NgramIndex.Rebuild | internal/store/ngram.go:34-42 | the state of exactly the items that have n-grams |
| Ngram.NgramIndex.SearchWithMetric | internal/store/ngram.go:110-186 | the results are those of scoring every document by brute force |
| TypoTolerance.OneEdit | internal/store/ngram.go:189-223 | inserting, deleting or replacing one character anywhere in a text, blanks included, destroys at most n of its n-grams |
| TypoTolerance.EditsLose | internal/store/ngram.go:189-223 | d such edits destroy at most n d n-grams, whether they change, split or join words |
| TypoTolerance.MisspeltQueryFinds | internal/store/ngram.go:110-223 | a text with more than n d n-grams is among the untruncated results of every query whose lower-cased text is d edits away, for every metric |
| TypoTolerance.MisspeltTextFinds | internal/store/ngram.go:110-223 | the same for edits of the text as written, lower-casing being done character by character |
| TypoTolerance.BoundIsSharp | internal/store/ngram.go:189-223 | texts of d words of length 2n - 1 have n d n-grams, and d edits leave none of them |
| TypoTolerance.SpoiltWords | internal/store/ngram.go:189-223 | such words exist for every n, every number of words and any two characters |
| Postings.IndexUnique | internal/store/bm25.go:26 | the documents determine the inverted index |
| Postings.RemovePostings | internal/store/bm25.go:117-124 | removing a document's postings leaves the index of the others, without empty lists |
| Postings.AddPostings | internal/store/bm25.go:91-96 | adding them gives the index with the document |
| Weights.IdfPositive | internal/store/bm25.go:143-144 | a token in no more documents than there are has positive weight |
| Weights.SmoothedIs | internal/store/bm25.go:143-144 | the logarithm is taken of (N + 1) / (df + 0.5) |
| Weights.RarerWeighsMore | internal/store/bm25.go:143-144 | of two tokens the one in fewer documents weighs strictly more |
| Weights.TfWeightIs | internal/store/tfidf.go:117-119 | one occurrence weighs one, count of them ln(count) more, strictly rising |
| Bm25.AveragePositive | internal/store/bm25.go:148-153 | the fallback for a zero average is never taken |
| Bm25.SaturationBounds | internal/store/bm25.go:148-150 | for 0 < b <= 1 a matching token counts strictly between 0 and k1 + 1 |
| Bm25.SaturationIs | internal/store/bm25.go:148-150 | times tf + k1 (1 - b + b dl / avg), written out, the factor is tf (k1 + 1) |
| Bm25.MoreOccurrencesCountMore | internal/store/bm25.go:148-150 | more occurrences count strictly more if and only if 1 - b + b dl / avg is positive, which b <= 1 ensures, or the denominator changes its sign between them |
| Bm25.LongerCountsLess | internal/store/bm25.go:148-150 | in a longer document the same occurrences count strictly less, if and only if the denominator does not go from negative to positive |
| Bm25.SingleTokenScore | internal/store/bm25.go:143-155 | the score of a one-token query, written out in counts and lengths |
| Bm25.ScoreAdds | internal/store/bm25.go:138-156 | the scores of the parts of a query add up |
| Bm25.MoreOccurrencesFirst | internal/store/bm25.go:134-171 | of two documents of equal length the one with more of the query's only token comes first, for every limit, if b <= 1 or their length factor is positive |
| Bm25.ShorterFirst | internal/store/bm25.go:134-171 | of two documents with equally many occurrences the shorter comes first, if its denominator is positive, which k1 (b - 1) <= 1 ensures |
| Bm25.WithinIffBounded | internal/store/bm25.go:148-150 | this holds for whatever items are stored if and only if b <= 1; for larger b two texts are constructed that break it |
| Bm25.ScoresFinite | internal/store/bm25.go:148-150 | while no length normalisation is zero, no score depends on what a division by zero gives |
| Bm25.ScorableWhenBounded | internal/store/bm25.go:148-150 | and while k1 (b - 1) <= 1 none is ever zero |
| Bm25.ScorePositive | internal/store/bm25.go:138-156 | while k1 (b - 1) <= 1 every returned document has a positive score |
| Bm25.PositiveIffBounded | internal/store/bm25.go:134-156 | every returned document scores above zero, whatever is stored and asked, if and only if k1 (b - 1) <= 1 |
| Bm25.ShortIsNegative | internal/store/bm25.go:143-155 | for larger parameters a one-token text scores below zero for that token once the average length exceeds k1 b over k1 (b - 1) - 1 |
| Bm25.CreditPostings | internal/store/bm25.go:143-155 | adding the gains of the postings of a token, in any order, takes the brute-force scores of a query to those of the query with the token |
| Bm25.Bm25Index.constructor | internal/store/bm25.go:40-54 | a new index is empty; non-positive parameters become 1.5 and 0.75 |
| Bm25.Bm25Index.IndexDocument | internal/store/bm25.go:70-103 | postings, lengths, counters and average are those of the documents with this one |
| Bm25.Bm25Index.RemoveDocument | internal/store/bm25.go:106-131 | and of the documents without it |
| Bm25.Bm25Index.Clear | internal/store/bm25.go:58-62 | everything is emptied but the average |
| Bm25.Bm25Index.Rebuild | internal/store/bm25.go:57-67 | the state of exactly the items; without items the average is stale |
| Bm25.Bm25Index.Search | internal/store/bm25.go:134-172 | the results are those of scoring every document by brute force |
| Tfidf.DocNorm | internal/store/tfidf.go:112-125 | the cached norm is the length of the document's weight vector |
| Tfidf.AllNorms | internal/store/tfidf.go:105-127 | every norm is recomputed from the current postings and count |
| Tfidf.DocNormPositive | internal/store/tfidf.go:167-170 | a document with a token has a positive norm: the skip is dead code |
| Tfidf.CosineBounds | internal/store/tfidf.go:165-173 | every score is in (0, 1], by Cauchy-Schwarz |
| Tfidf.EntriesAre | internal/store/tfidf.go:117-149 | an entry is (1 + ln count) ln x with x (df + 0.5) = N + 1, for documents and queries alike |
| Tfidf.CosineIs | internal/store/tfidf.go:165-173 | times both lengths, a score is the inner product of query and document vector |
| Tfidf.OwnCosine | internal/store/tfidf.go:130-186 | a document scores exactly one for its own tokens, in any order |
| Tfidf.NoMatchingTokens | internal/store/tfidf.go:160-163 | the query norm is zero if and only if nothing matches |
| Tfidf.CreditQuery | internal/store/tfidf.go:141-158 | the loops compute the inner products and the query norm, in any order of tokens and postings |
| Tfidf.TableIsCosines | internal/store/tfidf.go:165-173 | the listed scores are the cosines of all matching documents |
| Tfidf.TfidfIndex.constructor | internal/store/tfidf.go:18-24 | a new index is empty |
| Tfidf.TfidfIndex.Rebuild | internal/store/tfidf.go:27-50 | the state of exactly the items that have tokens |
| Tfidf.TfidfIndex.IndexDocument | internal/store/tfidf.go:53-79 | the state of the documents with this one, counted even without tokens; all norms current |
| Tfidf.TfidfIndex.RemoveDocument | internal/store/tfidf.go:82-102 | the state of the documents without it; all norms current |
| Tfidf.TfidfIndex.Search | internal/store/tfidf.go:130-186 | the results are the cosines of every document that shares a token |
| Runs.RunBm25 | internal/store/bm25.go:57-131 | after any sequence of operations the index holds exactly the final documents |
| Runs.Bm25RunIsRebuild | internal/store/bm25.go:57-131 | and every field equals that of a rebuild from them |
| Runs.RunNgram | internal/store/ngram.go:34-93 | the same for n-grams |
| Runs.NgramRunIsRebuild | internal/store/ngram.go:34-93 | and every field equals that of a rebuild |
| Runs.RunTfidf | internal/store/tfidf.go:27-102 | the final documents with tokens, and the blank ones added since the last rebuild |
| Runs.TfidfRunAndRebuild | internal/store/tfidf.go:27-102 | the document count exceeds that of a rebuild by exactly the blank ones; the postings are equal, and without blanks everything is |
| Ranking.RankingUnique | internal/store/bm25.go:158-167 | the order of results does not depend on the order in which scores are read |
| Ranking.BestAreKept | internal/store/bm25.go:158-171 | results are the best entries, as many as asked for, best first; equal scores by key, shorter or smaller at the first difference first |
| Ranking.RankAndTruncate | internal/store/bm25.go:158-171 | sorting and cutting gives a prefix of the unique ranking |
| Cosine.CosineSimilarity | internal/store/vector.go:13-28 | the accumulator loop and its zero cases |
| Cosine.SimilarityIs | internal/store/vector.go:13-28 | times both lengths it is the inner product, and zero for different dimensions |
| Cosine.SimilarityBounds | internal/store/vector.go:11-12 | similarities lie in [-1, 1] |
| Cosine.SimilaritySymmetric | internal/store/vector.go:13-28 | similarity is symmetric |
| Cosine.SelfSimilarity | internal/store/vector.go:23-27 | a vector's similarity to itself is one, or zero if it has no length |
| Pool.WorkConserved | internal/store/vector.go:61-84 | a step moves work between unread, queued, in flight and delivered, and loses only what it drops |
| Pool.InvStep | internal/store/vector.go:56-84 | every step of any worker keeps the invariant: no item is in two places, no matching item is lost, the wait group counts the running workers |
| Pool.RoomToProduce | internal/store/vector.go:56-78 | the producer's send never blocks |
| Pool.RoomToSend | internal/store/vector.go:57-71 | a worker's send never blocks |
| Pool.Progress | internal/store/vector.go:60-83 | until the wait returns some step is possible: no deadlock |
| Pool.EveryRun | internal/store/vector.go:46-84 | every interleaving is finite, within a stated number of steps, and ends with each matching item delivered once |
| Pool.AnyChoiceSchedules | internal/store/vector.go:60-83 | a scheduler that always picks an enabled step exists |
| Pool.VectorSearch | internal/store/vector.go:46-98 | for every number of workers and every schedule, the result is that of the sequential scan: scores are cosines, and without a limit exactly the items whose vector is as long as the query are found |
| Store.TouchKeepsBytes | internal/store/engine.go:87-89 | the access bump leaves the byte count unchanged |
| Store.SizesAdd | internal/store/engine.go:23-27 | an empty record takes 112 bytes, each character of key and value one more, each vector component four, nothing else counts |
| Store.EffectWithinLimit | internal/store/engine.go:52-159 | no operation takes the store over its limit |
| Store.Engine.constructor | internal/store/engine.go:40-49 | a new engine is empty |
| Store.Engine.Set | internal/store/engine.go:52-70 | fails, changing nothing, exactly when the item would not fit; the counter stays the sum of the sizes |
| Store.Engine.Get | internal/store/engine.go:74-91 | finds exactly what is there and not past its expiry time, counting an access, and removes an expired item |
| Store.Engine.Delete | internal/store/engine.go:94-104 | removes the item and its bytes, and reports whether it was there |
| Store.Engine.EvictExpired | internal/store/engine.go:148-159 | removes exactly the expired items and their bytes |
| Store.Engine.Items | internal/store/engine.go:119-128 | the snapshot equals the data |
| Locking.InvStep | internal/store/engine.go:52-159 | each separate step under the lock keeps counter plus debt equal to the bytes stored |
| Locking.EveryInterleaving | internal/store/engine.go:52-159 | under any interleaving lock-free reads lie within the limit; when the lock is free the counter is exact and the map is that of the finished operations run one after the other |
| Heap.EvictionHeap.Swap | internal/store/eviction.go:18-22 | exchanges two entries |
| Heap.EvictionHeap.PopLast | internal/store/eviction.go:28-35 | takes the last entry off |
| Heap.EvictionHeap.Down | internal/store/eviction.go:52-57 | the sift-down of Go's container/heap restores the heap below a position and keeps the multiset |
| Heap.EvictionHeap.Init | internal/store/eviction.go:52 | makes a heap of the same entries |
| Heap.EvictionHeap.Pop | internal/store/eviction.go:57 | removes a least entry and keeps a heap of the others |
| Heap.RootIsLeast | internal/store/eviction.go:14-17 | the root of a heap is a least entry |
| Eviction.PriorityIs | internal/store/eviction.go:49 | the priority times one more than the accesses is the cost |
| Eviction.AccessLowersPriority | internal/store/eviction.go:49 | for more accesses the priority is lower if and only if the cost is positive, equal if and only if it is zero |
| Eviction.LeastKey | internal/store/eviction.go:47-57 | the candidate is an item of least priority |
| Eviction.Evict | internal/store/eviction.go:40-60 | ends with memory at most the target or nothing left; the evicted items are a shortest prefix of a priority order, none has a higher priority than a survivor, and survivors are untouched |
| Eviction.EachPassFrees | internal/store/eviction.go:41-59 | every pass frees memory |
| Fusion.RRFMulti | internal/store/hybrid.go:16-44 | the accumulated scores are the sums of 1/(k + rank), ranked and cut; a non-positive k becomes 60 |
| Fusion.ShareIs | internal/store/hybrid.go:24 | the place after rank others is worth 1 / (k + rank + 1) |
| FusionLaws.PlacesAreWorth | internal/store/hybrid.go:22-26 | a list with distinct keys gives each its place's worth, and other keys nothing |
| FusionLaws.LastList | internal/store/hybrid.go:22-26 | each list adds what it gives |
| FusionLaws.OrderOfListsIrrelevant | internal/store/hybrid.go:22-26 | permuting the lists changes nothing |
| FusionLaws.BetterEverywhere | internal/store/hybrid.go:22-38 | a key above another wherever that one appears is fused above it |
| FusionLaws.ResultsOrdered | internal/store/hybrid.go:28-43 | keys are distinct, strictly ordered, and a prefix of the unlimited results |
| FusionLaws.SingleList | internal/store/hybrid.go:22-38 | fusing one list keeps its keys in their order |
| Requests.ChooseStrategies | internal/server/grpc.go:258-295 | the flags are those asked for or implied, and possible, whatever the order of the request |
| Requests.ChosenAre | internal/server/grpc.go:258-295 | when each of the five strategies runs, written out |
| Requests.SameChoice | internal/server/grpc.go:265-295 | no choice is the unspecified one, and neither order nor repetition of the strategies matters |
| Requests.AddedIs | internal/server/grpc.go:307-340 | a strategy takes part with its best results, twice as many as asked for, if it has any |
| Requests.SingleStrategy | internal/server/grpc.go:307-344 | one strategy, cut at twice the limit, fused and cut again, gives its own keys in its own order for every limit |
| Answers.LookedIsAccessed | internal/server/grpc.go:351-366 | each live result is counted exactly once, expired results go, everything else is untouched |
| Answers.ToProtoResults | internal/server/grpc.go:351-366 | each result has the key and score it was found with and shows what the lookups before it left, and the store ends as after all lookups; with distinct keys the values shown are the stored ones, none for keys that are not live |
| Tracking.SetKeepsConsistent | internal/server/grpc.go:85-102 | a successful Set keeps every index in step with the store |
| Tracking.DeleteKeepsConsistent | internal/server/grpc.go:141-155 | so does Delete |
| Tracking.LossKeepsConsistent | internal/store/engine.go:82-86 | expiry leaves only keys that are accounted for as lost |
| Tracking.EmbeddingStores | cmd/gogaghe-server/main.go:49-63 | the callback gives a live item that still fits its new vector and one access more, and leaves all others alone |
| Tracking.TimeToLive | internal/server/grpc.go:74-84 | an item that has been set is found, as it was set, until its time to live is over, or forever without one |
| Service.Server.constructor | internal/server/grpc.go:45-68 | a service over any engine and indexes, any of which may be missing; over empty ones it is valid, with no key lost |
| Service.Server.Set | internal/server/grpc.go:70-117 | fails, changing nothing, exactly when the store refuses; otherwise store and all indexes change together |
| Service.Server.Get | internal/server/grpc.go:119-138 | what the engine finds; indexes are untouched |
| Service.Server.Delete | internal/server/grpc.go:140-159 | store and all indexes lose the key, if the store had it |
| Service.Server.SurfaceSearch | internal/server/grpc.go:161-179 | the n-gram results, answered and counted; results that are not live are for lost keys and show no value |
| Service.Server.Bm25Search | internal/server/grpc.go:181-190 | the BM25 results, answered and counted; results that are not live are for lost keys and show no value |
| Service.Server.TfidfSearch | internal/server/grpc.go:203-212 | the TF-IDF results, answered and counted; results that are not live are for lost keys and show no value |
| Service.Server.LsaSearch | internal/server/grpc.go:214-223 | the latent results, answered and counted; results that are not live are for lost keys and show no value |
| Service.Server.VectorSearch | internal/server/grpc.go:225-242 | the dense results for the given or embedded query, answered and counted; results that are not live are for lost keys and show no value |
| Service.Server.HybridSearch | internal/server/grpc.go:244-347 | the fusion of the chosen strategies' results, answered and counted; results that are not live are for lost keys and show no value |
| Service.Server.Sweep | internal/store/engine.go:148-159 | the background sweep, which no index hears of |
| Service.Server.Embedded | cmd/gogaghe-server/main.go:49-63 | the embedder's callback as one step: afterwards no key is lost and all indexes are those of the store, or the item was gone and only looked up |
| Service.StrayResults | internal/server/grpc.go:351-366 | a result of any of the searches that is not live is for a key the service has lost |
| Service.MisspeltSearchFinds | internal/server/grpc.go:161-179 | without a limit, every surface search d edits away from the stored value of a live key with more than n d n-grams finds the key |
| Service.MisspeltSearchAnswers | internal/server/grpc.go:161-179 | and if the item has not expired, the answer shows its value |
| Service.SchedulerExists | internal/store/vector.go:60-83 | the schedulers that vector searches and runs take as a parameter exist |
| History.OnlyExpiryLoses | internal/store/engine.go:82-86 | no call loses a key but one that finds its item expired by its own reading of the clock |
| History.OnlySetOrRebuildFinds | internal/server/grpc.go:70-159 | a lost key is no longer lost only once it is set, or all indexes are rebuilt |
| History.ServesKeepsConsistent | internal/server/grpc.go:70-366 | every call keeps the indexes in step with the store |
| History.LostHasExpired | internal/store/engine.go:74-159 | in a run that starts with no key lost, every lost key was found expired by some call and has been neither live nor forgotten since |
| History.CallCounts | internal/store/engine.go:87-89 | a call that does not set a key adds one to its access count if it gets, re-embeds or returns it, and nothing otherwise |
| History.CountSinceSet | internal/server/grpc.go:70-366 | the access count of a live item is the number of calls that got, re-embedded or returned it since its last successful Set |
| ServiceRuns.ServeAll | internal/server/grpc.go:70-366 | after any sequence of calls and sweeps, failed ones included, every index holds exactly the contents of the live keys, and any other key it holds was found expired by some call of the run; the byte counter is exact |
| ServiceRuns.Serve | internal/server/grpc.go:70-366 | each call changes the state of store and indexes exactly as the step relation says, a search by looking up what it finds in the state before |
| ServiceRuns.StrayResultsHaveExpired | internal/server/grpc.go:351-366 | a result that is not live, of any search after such a run, is for a key that expired during the run |
| ServiceRuns.HybridOfOne | internal/server/grpc.go:244-347 | a hybrid call naming one strategy returns the keys of that strategy's own call, in the same order |

## Left out

- Floating point: rounding, NaN, infinities and overflow. Scores and matrices are exact reals; ln, sqrt, sin, cos and atan2 are any functions that obey the stated laws. float32 vectors and scores are reals too.
- 64-bit wrap-around of counters and of `TopK * 2`: integers are unbounded.
- Bm25.Bm25Index.Search: where a length normalisation is zero, which takes k1 (b - 1) > 1, Go divides by zero and gets an infinite score; here one arbitrary real stands for it. Search equals brute force whatever that real is, but nothing is said about where Go puts such documents.
- Lsa.LSAIndex.Rebuild: the test matrix is an arbitrary function of row and column instead of Gaussian draws, and nothing is claimed about how well the projection Q Qt A approximates the matrix.
- Jacobi.JacobiEigen: no full diagonalisation is claimed, since the code stops after 50 rotations; the remaining energy is bounded instead.
- Slices that are never changed after they are stored (document vectors, the matrix U, token lists) are sequences, so sharing of their backing arrays is not modelled; the matrices of the decomposition are mutable arrays.
- Unicode: the lower-case mapping and the letter, digit and white-space classes are an arbitrary alphabet in which letters and digits are not white space. Text is a sequence of characters, and sizes count one byte for each.
- Heap.EvictionHeap.Swap: does not model the `index` field of heap entries, which Evict leaves unset and never reads; the unused Push method is left out.
- Concurrency of the BM25, TF-IDF and n-gram indexes, which have no lock, and of the read lock of the latent index: calls are sequential. Readers of the engine under its read lock see the map as it is while no writer holds the lock.
- Service.Server.Embedded: the callback's Get and Set are two locked operations in the code and one step here, so calls between them are not modelled.
- Real time: every reading of the clock is a parameter of the call.
- Scheduling: the goroutine scheduler is a parameter that picks any enabled step.
- The embedder, gRPC and protobuf code, metrics, configuration files, logging, Docker and Grafana files: input, output or generated code. The answer of the embedder is a parameter.
- RRF and LexicalSearch, which only forward to RRFMulti and Bm25Search.
