# eHOST inter-annotator agreement, modelled in Dafny

This project models the agreement engine of the eHOST annotation scripts.
Two annotators have each annotated a corpus. For every pair of files with
the same base name, the engine pairs up their annotations by span. The
first pass takes, for each annotation of the first annotator, the first
annotation of the second annotator whose span matches, either strictly or
in relaxed mode. It then compares the attributes of each pair, counts
true positives, missing annotations (fn) and spurious annotations (fp),
and reports precision, recall and f-score over the whole batch.

The project also models the reader helpers the engine relies on:
- flattening the loader's nested dictionaries;
- counting mention classes in one document and across a directory;
- indexing records by their start offset.

Modules, in dependency order:

| module | file | what it holds |
|---|---|---|
| `Annotations` | annotations.dfy | records, Python `==` on records (`Same`), membership in `matched` |
| `Spans` | spans.dfy | `match_span` and the matching mode |
| `Attributes` | attributes.dfy | `match_attributes`, tallies and their Counter sum, `get_tag_attrs` |
| `Metrics` | metrics.dfy | `prf` and `attr_prf`, over exact rationals |
| `Documents` | documents.dfy | `count_agreements`: both passes, the bookkeeping, the missing and spurious lists |
| `DocumentProperties` | document_properties.dfy | what `count_agreements` guarantees |
| `Corpus` | corpus.dfy | `get_all_annotated_attributes` and `batch_agreement` |
| `CorpusProperties` | corpus_properties.dfy | what `batch_agreement` guarantees |
| `Reader` | reader.dfy | `convert_file_annotations`, `count_mentions`, `batch_count_mentions`, `annotations_by_start_offset` |

**What the model takes as given**
- A record is a Python dict of optional strings. Its `start` and `end` are
  kept as the integers `int()` makes of them.
- A document is the sequence of records `convert_file_annotations` gives.
- A corpus is a sequence of files: each file is a path plus its records.
- `Same` compares `start` and `end` as integers. Python `==` on two
  records compares the raw attribute strings, so "5" and "05" are equal
  only in the model. eHOST writes offsets without leading zeros.

**How state and outputs are modelled**
- The source's loops over lists and dicts are `while` loops in methods.
  Each method is proved against a function of its inputs. The
  properties are lemmas about those functions.
- The report string is modelled as a sequence of structural `Line`s: the
  section headings, each matched pair with its attribute diagnostics, and
  the missing and spurious lists. Its exact text is not modelled.
- The global `ATTRS` is an input (`prior`) and an output (`attrs`) of
  `BatchAgreement`.

**Behaviour of the code worth knowing**
- Pass 1 (ehost_agreement.py:161-183) does not skip a second-side
  annotation that is already matched. So one annotation of the second
  annotator can be paired with several of the first, and `tp + fp` can
  exceed the number of second-side annotations.
- `match_attributes` (ehost_agreement.py:109-119) counts a value set only
  on the first record as fn, and a value set only on the second as fp.
- `attrs_to_check` (ehost_agreement.py:83) compares `class` as an
  attribute. Only start, end, text, comment and annotator are excluded.
- Relaxed `match_span` (ehost_agreement.py:51-74) is symmetric for all
  integer offsets. So pass 2 never adds a pair. A second-side annotation
  can stay unmatched while it overlaps first-side annotations. But every
  first-side annotation it meets was already matched in pass 1, with an
  earlier second-side annotation, so pass 2 finds no unmatched partner
  for it.

## Model

| member | source | states |
|---|---|---|
| Spans.ParseMatching | ehost_agreement.py:280-281 | only "strict" and "relaxed" are accepted modes, and "relaxed" is the only one read as relaxed |
| Spans.MatchSpan | ehost_agreement.py:39-77 | strict matching holds iff both offsets are equal; equal offsets match in either mode; in relaxed mode, for spans with start <= end, a match is exactly closed-interval overlap |
| Spans.StrictImpliesRelaxed | ehost_agreement.py:51-55 | every strict match is a relaxed match, because the equality test runs before the mode test |
| Spans.MatchSpanSymmetric | ehost_agreement.py:51-74 | swapping the two records never changes whether their spans match, in either mode |
| Spans.TouchingSpansMatch | ehost_agreement.py:66-69 | well-ordered spans that only touch (first end == second start) match in relaxed mode |
| Annotations.MemberAppend | ehost_agreement.py:186 | a record is `in` a list plus one record iff it is in the list or equals that record |
| Annotations.KeysOfRecord | ehost_agreement.py:83 | for a well-formed record, the keys iterated are exactly the keys holding a value |
| Attributes.CheckedKeys | ehost_agreement.py:83 | attrs_to_check holds exactly the keys of tag1 outside start/end/text/comment/annotator, and has no repeats when the keys have none |
| Attributes.Score | ehost_agreement.py:93-126 | one branch adds the outcome of the two values to the old counts, and writes a diagnostic exactly when the values do not agree |
| Attributes.MatchAttributes | ehost_agreement.py:80-128 | the loop builds the tallies of the checked attributes and one diagnostic per non-agreeing attribute, in key order |
| Attributes.TalliesOfDistinct | ehost_agreement.py:90-126 | over distinct keys, each checked attribute gets exactly one entry, which is the outcome of its two values |
| Attributes.AttrScoresReference | ehost_agreement.py:83-126 | for a well-formed tag1, the loop's tallies equal the per-attribute reference comprehension |
| Attributes.OutcomeCases | ehost_agreement.py:93-126 | equal values give tp; unequal values give fp and fn; None then a value gives fp; a value then None gives fn; None and None give tn; tp exactly when the values agree |
| Attributes.AttrTalliesKeys | ehost_agreement.py:83-90 | the tallies have one key per non-excluded key of tag1; keys found only on tag2 get none |
| Attributes.DiagnosticsIffNoTp | ehost_agreement.py:94-126 | the diagnostics are empty iff every checked attribute scored a tp; an attribute has a diagnostic iff its tally has no tp (the None/None tn case included) |
| Attributes.DisagreementsSound | ehost_agreement.py:108-126 | every diagnostic names a checked attribute, shows its two values, and those values disagree |
| Attributes.DisagreementsComplete | ehost_agreement.py:90-126 | every checked attribute whose values disagree has a diagnostic |
| Attributes.DisagreementsCharacterized | ehost_agreement.py:90-126 | a diagnostic mentions an attribute iff that attribute is checked and its values disagree |
| Attributes.AttrTalliesSwap | ehost_agreement.py:93-126 | swapping the two records swaps fp and fn and keeps tp and tn |
| Attributes.MergeTallies | ehost_agreement.py:173-177 | the per-attribute Counter sum of two tally dicts is their pointwise sum over the union of keys |
| Attributes.LookupMerge | ehost_agreement.py:174-176 | each attribute's merged counts are the sum of its two counts, a missing key counting as zero |
| Attributes.MergeAgrCommutative | ehost_agreement.py:176 | the Counter sum of tallies does not depend on the order of its operands |
| Attributes.MergeAgrAssociative | ehost_agreement.py:333-337 | the Counter sum of tallies is associative, so per-document tallies can be summed in any grouping |
| Attributes.MergeAgrIdentity | ehost_agreement.py:317-337 | the empty dict the sums start from is the identity of the Counter sum |
| Attributes.GetTagAttrs | ehost_agreement.py:131-139 | the vector of a record has exactly the keys of ATTRS, each mapped to `tag.get(attr, None)` |
| Metrics.Prf | ehost_agreement.py:251-265 | a zero precision or recall denominator gives three zeros; otherwise p*(tp+fp) == tp and r*(tp+fn) == tp, both in [0,1]; ZeroDivisionError exactly when tp == 0 with fp > 0 and fn > 0 |
| Metrics.PrfFscore | ehost_agreement.py:261-263 | the f-score equals 2tp/(2tp+fp+fn), lies in [0,1] and lies between precision and recall |
| Metrics.PrfSwap | ehost_agreement.py:261-263 | swapping fp and fn swaps precision and recall, keeps the f-score, and keeps whether prf raises |
| Metrics.AttrPrf | ehost_agreement.py:232-248 | one score triple per attribute, each the prf of its counts, or ZeroDivisionError exactly when one attribute's prf raises |
| Documents.FirstFit | ehost_agreement.py:162-190 | the inner search returns the first candidate whose span matches (and that is unmatched in pass 2), and no earlier candidate qualifies |
| Documents.Filter | ehost_agreement.py:214-225 | the kept records are records of the list whose membership in `matched` is the one asked for |
| Documents.AccMatched | ehost_agreement.py:167-194 | `matched` is the two records of every pair in turn |
| Documents.AccShape | ehost_agreement.py:169-208 | the bookkeeping counts one tp per pair and appends one vector per side per pair, each the record's vector over ATTRS |
| Documents.AddPair | ehost_agreement.py:165-182 | recording a match appends its two records to `matched`, adds one tp, merges its attribute tallies and appends both vectors |
| Documents.FirstPassScan | ehost_agreement.py:162-183 | the inner loop of pass 1 records the first matching tag2, if any, and stops |
| Documents.MatchPass1 | ehost_agreement.py:161-183 | pass 1 produces the pairs of the first-fit function and the bookkeeping of those pairs |
| Documents.SecondPassScan | ehost_agreement.py:186-209 | the inner loop of pass 2 skips a matched tag2 and otherwise records the first unmatched tag1 that matches |
| Documents.MatchPass2 | ehost_agreement.py:185-209 | pass 2 extends the pairs as the second-pass function does, keeping the bookkeeping in step |
| Documents.ReportUnmatched | ehost_agreement.py:214-225 | the count is the number of records not in `matched`, and each of them is listed in order |
| Documents.CountAgreements | ehost_agreement.py:142-229 | the method's results are those of the document-agreement function |
| Documents.VectorsLockstep | ehost_agreement.py:179-208 | per document, both vector lists have length tp and every vector has exactly the keys of ATTRS |
| DocumentProperties.FirstFitFound | ehost_agreement.py:162-164 | the pass-1 search finds a partner iff some tag2 matches |
| DocumentProperties.MemberFlatten | ehost_agreement.py:167-188 | a record is in `matched` iff it equals one side of some pair |
| DocumentProperties.Pass1Shape | ehost_agreement.py:161-183 | every pass-1 pair is a tag1 with its first matching tag2 (the order of the pairs is stated by DocumentProperties.Tag1sOfPairs) |
| DocumentProperties.Pass1Covers | ehost_agreement.py:161-183 | every tag1 with some matching tag2 ends up in a pair |
| DocumentProperties.Pass1PairOf | ehost_agreement.py:161-183 | a tag1 with some matching tag2 forms a pass-1 pair with the first tag2 it matches |
| DocumentProperties.Pass1Sound | ehost_agreement.py:161-183 | every record matched in pass 1 has a matching tag2 |
| DocumentProperties.Pass1Matched | ehost_agreement.py:161-183 | after pass 1, a tag1 is matched iff some tag2 matches it |
| DocumentProperties.Pass2Inert | ehost_agreement.py:185-209 | pass 2 adds no pair in either mode, because the matcher is symmetric |
| DocumentProperties.Tag1sOfPairs | ehost_agreement.py:161-183 | the first sides of the pairs are exactly the matched tag1s, in order |
| DocumentProperties.FilterPartition | ehost_agreement.py:214-225 | a record in `matched` is among the kept records and any other is reported as unmatched, never both; the two counts add up to the length |
| DocumentProperties.FilterDistinct | ehost_agreement.py:222-225 | keeping part of a list of distinct records gives distinct records |
| DocumentProperties.Pigeonhole | ehost_agreement.py:222-225 | distinct records that all belong to a list are no more than its length |
| DocumentProperties.AtMostOneSame | ehost_agreement.py:186 | among distinct records at most one equals a given record |
| DocumentProperties.PairsAreFirstMatches | ehost_agreement.py:161-209 | each final pair is a tag1 with its first matching tag2 |
| DocumentProperties.MatchedIffHasMatch | ehost_agreement.py:161-217 | a tag1 is matched iff some tag2 matches it, so a missing tag1 matched nothing |
| DocumentProperties.MissingMatchNothing | ehost_agreement.py:161-217 | every missing record of the first side was compared against every tag2 and matched none |
| DocumentProperties.SpuriousMeetsOnlyMatched | ehost_agreement.py:161-225 | a spurious tag2 at index b matches only tag1s that are matched, and each of them is paired with a tag2 at an index below b |
| DocumentProperties.EachTag1Once | ehost_agreement.py:161-183 | for distinct tag1s, no tag1 is in two pairs |
| DocumentProperties.AgreementCounts | ehost_agreement.py:169-225 | tp is the number of pairs, fp the number of unmatched tag2s and fn the number of unmatched tag1s |
| DocumentProperties.TpPlusFnIsFirstCount | ehost_agreement.py:161-217 | tp + fn equals the number of tag1s |
| DocumentProperties.TpPlusFpCoversSecond | ehost_agreement.py:161-225 | for distinct tag2s that equal no tag1, tp + fp is at least the number of tag2s |
| DocumentProperties.SharedPartnerPairs | ehost_agreement.py:161-183 | in either mode, two tag1s with the span of one tag2 are both paired with it in pass 1 |
| DocumentProperties.SharedPartnerCountsTwice | ehost_agreement.py:161-225 | then, in either mode, tp == 2 with one tag2 and no fp or fn, so tp + fp exceeds the number of tag2s |
| Corpus.FileNamesMembers | ehost_agreement.py:18-30 | the names a file contributes are exactly the keys of its records outside IGNORE_ATTRS |
| Corpus.VocabularyMembers | ehost_agreement.py:18-36 | a name is contributed by a corpus iff it is outside IGNORE_ATTRS and is a key of some record |
| Corpus.FileAttributes | ehost_agreement.py:30 | the flattened keys of one file, outside IGNORE_ATTRS |
| Corpus.AddFileAttributes | ehost_agreement.py:28-36 | the loop unites ATTRS with the names of each file |
| Corpus.GetAllAnnotatedAttributes | ehost_agreement.py:21-36 | ATTRS becomes its old value united with the names of both corpora |
| Corpus.VocabularyGrowth | ehost_agreement.py:21-36 | ATTRS only grows, and gains exactly the names annotated in either corpus |
| Corpus.BasenameIsLastSegment | ehost_agreement.py:324-325 | the base name holds no '/', ends the path, and is preceded by '/' unless it is the whole path |
| Corpus.PartnersMembers | ehost_agreement.py:322-326 | the files compared with one file are exactly the second-side files with its base name, each position once, in the order of files2 |
| Corpus.JoinedMembers | ehost_agreement.py:321-326 | the compared pairs are exactly the pairs of files with equal base names |
| Corpus.FoldPartners | ehost_agreement.py:321-341 | absorbing one file's partners in turn is the inner loop's fold |
| Corpus.AddDocument | ehost_agreement.py:327-341 | comparing one pair adds its counts, merges its tallies, extends both vector lists and carries on the report |
| Corpus.ComparePartners | ehost_agreement.py:322-341 | the inner loop absorbs every second-side file with the same base name |
| Corpus.CompareCorpus | ehost_agreement.py:321-341 | the nested loop absorbs every pair of files with equal base names, in order |
| Corpus.FoldLockstep | ehost_agreement.py:340-343 | after any number of pairs, both vector lists have length tp_g and every vector has the keys of ATTRS, so the assert holds |
| Corpus.BatchAgreement | ehost_agreement.py:268-362 | the method returns the batch function's result and leaves ATTRS as the batch function says |
| CorpusProperties.FoldCounts | ehost_agreement.py:330-332 | tp_g, fp_g and fn_g are the sums of the per-document counts |
| CorpusProperties.SumCountsCoverFirst | ehost_agreement.py:321-332 | over the compared pairs, every first-side record is a tp or a fn, exactly once |
| CorpusProperties.SumCountsCoverSecond | ehost_agreement.py:321-332 | over the compared pairs, with distinct second-side records equal to no first record, tp_g + fp_g is at least the number of second-side records |
| CorpusProperties.AccTalliesIndependent | ehost_agreement.py:171-177 | the tallies of a document depend on its pairs alone, not on the report or ATTRS |
| CorpusProperties.FoldTallies | ehost_agreement.py:333-337 | each attribute's global tally is the sum of its per-document tallies |
| CorpusProperties.BatchModeCheck | ehost_agreement.py:280-281 | a mode other than strict or relaxed raises ValueError before anything else, and only such a mode does; ATTRS is then unchanged |
| CorpusProperties.BatchVocabulary | ehost_agreement.py:280-296 | ATTRS keeps what it held and gains no name in IGNORE_ATTRS |
| CorpusProperties.BatchOutcome | ehost_agreement.py:321-353 | on a valid mode the batch raises exactly when prf of the totals raises; otherwise it returns the totals and their prf |
| CorpusProperties.BatchTotals | ehost_agreement.py:321-343 | the totals are the sums over the compared pairs, tp_g + fn_g is the number of first-side records, and both vector lists have length tp_g |
| Reader.FlattenedLength | ehost_annotation_reader.py:117-123 | the flattened list has one entry per record, so no records give [] |
| Reader.FlattenedAt | ehost_annotation_reader.py:118-122 | record j of file i sits at (records of the earlier files) + j: outer-key order, then annotation-id order |
| Reader.FlattenedFrom | ehost_annotation_reader.py:118-122 | every entry of the flattened list is a record of some file |
| Reader.ConvertFileAnnotations | ehost_annotation_reader.py:112-123 | the nested loop returns the flattened records, one per record, and [] for no files |
| Reader.TalliedCount | ehost_annotation_reader.py:145-151 | each class seen gets a key whose count is its number of nodes (at least 1); no other name gets a key |
| Reader.TalliedSum | ehost_annotation_reader.py:145-151 | the counts add up to the number of mention nodes |
| Reader.CountMentions | ehost_annotation_reader.py:126-153 | a ParseError gives the empty dict; otherwise the loop gives the class counts |
| Reader.SpreadCount | ehost_annotation_reader.py:164-170 | each class gets the number of files whose counts hold it, between 1 and the number of files; unmentioned classes get no key |
| Reader.BatchCountMentions | ehost_annotation_reader.py:156-172 | the nested loop adds 1 per file for each class the file mentions |
| Reader.ByStartKeys | ehost_annotation_reader.py:265-270 | the keys are exactly the start offsets of the records |
| Reader.ByStartLastWins | ehost_annotation_reader.py:266-268 | the record stored under a start offset is the last record with that offset |
| Reader.AnnotationsByStartOffset | ehost_annotation_reader.py:261-270 | the loop stores each record under its start offset, later ones overwriting earlier ones |

## Left out

- XML parsing (`load_mentions_with_attributes`, ElementTree) and directory listing (`get_corpus_files`, `os.listdir`, `batch_process_directory`) are foreign library I/O. Records, parsed class lists and file lists are inputs instead.
- `batch_agreement` returns None; the model's `BatchReport.report` stands for the report string that the source prints and writes to the report file.
- The `report_dir` check and the report file (ehost_agreement.py:283-284, 302-304, 383-388) are filesystem I/O and are not modelled; neither is printing.
- The text of the report is not modelled. The structure of each line is; string formatting is not.
- Metrics.Prf: scores are exact reals, while the source divides binary floats, so `precision * (tp + fp) == tp` and the bounds in [0,1] hold in the program only up to rounding.
- The per-attribute scikit-learn scores and Cohen's kappa (ehost_agreement.py:364-379) are foreign library code. The model keeps only the attribute section heading, and the notice shown when ATTRS is empty. An exception raised inside those library calls is not modelled either.
- The `endswith('xml')` filter of `batch_agreement` (ehost_agreement.py:292-293) is not modelled: `files1` and `files2` are taken as already holding only the paths that end in `xml`. Without it, the `.txt` files that `get_corpus_files` also returns would be joined on base name too.
- `int()` on `start`/`end` is not modelled: records carry integer offsets, so its ValueError is not modelled either.
- The KeyError `match_span` raises for a record without `text` is not modelled, since `text` is only read for the report.
- The `ignore_attributes` parameter of `batch_agreement` is never used by the source and is not modelled.
- The call of `attr_prf` in `batch_agreement` is commented out (ehost_agreement.py:381), so the batch does not score attributes by hand. `attr_prf` is still modelled on its own, as Metrics.AttrPrf.
- Corpus.BasenameIsLastSegment: base names follow POSIX `os.path.basename` (after the last '/'); Windows separators are not modelled.
- `count_mentions` with `attribs=True` reads another node list; both node lists are abstracted as the parsed sequence of class ids.
- `ehost2tsv` and `save_as_ehost_text`, apart from the nested `annotations_by_start_offset`, use spaCy and pandas and are not modelled.
- The module-level ATTRS global is modelled as a value passed in and returned; its sharing across calls is not.
- Reader.BatchCountMentions: Python iterates a dict's keys in insertion order, but the model takes them in an arbitrary order. The result does not depend on the order.
