# CLDB core, modelled in Dafny

CLDB is a cohort database of structural variants (SVs) and copy-number variants (CNVs) for rare-disease sequencing projects. A batch pipeline fills it, and a Streamlit app queries it. This project models the pipeline's logic and the app's query builders:

- **Call parsing.**
  - Sniffles2 VCF lines are parsed by key (`Snf2Calls`). INFO entries follow section 1.4.1 of VCF 4.2, and breakend ALT notation follows section 5.4.
  - PacBio/P2 lines are parsed by fixed offsets, and a known chromosome-2 artifact window is dropped (`P2Calls`).
  - The gnomAD/TopMed and dbVar extraction scripts use a line loop whose field variables carry over from line to line (`Extract`).
  - Both VCF readers read a file line by line and give up on the first line that raises; that loop is stated once for any line parser (`Lines`).
- **Genome linearisation and clustering.**
  - Chromosome size tables and their exclusive prefix-sum offsets (`Assemblies`, `Genome`).
  - The per-type relabelling of DBSCAN labels with a threaded cluster counter (`Relabel`).
  - The whole clustering step, from parsed calls to rows carrying a cluster id and frequency statistics (`SvCluster`).
  - Cluster frequencies and proband counts (`Freq`).
- **Read-depth CNV calls.**
  - Run-length segments become base-pair intervals, gain/loss thresholds are applied, copy-number levels come from log2 bands, and per-type SV ids are assigned (`Segments`).
  - The repeat-collapse pass rewrites the cluster column in place (`Collapse`).
- **Annotation.**
  - Segmental duplications, OMIM, gnomAD, DGV, RefSeq, RepeatMasker, ClinGen, and the DECIPHER/ISCA overlaps (`Annotate`).
  - The per-row annotation loops that fill the new columns (`AnnotateCalls`).
  - The RefSeq gene-span table (`RefSeqTable`).
- **CGR reconciliation.** Each CNV end is matched to its nearest large SV (`Cgr`).
- **SQL query text.**
  - The query head, the ' AND ' clauses and the LIMIT clause (`Sql`).
  - The filter blocks shared by the builders (`SqlFilters`).
  - The 900-gene OR groups and the HPO-to-gene step (`GeneClause`).
  - The five builders: `CGR_build`, `P2_build`, `CNV_build`, and `build_qry`/`build_qry_cnv` (`QueryBuild`).

Some helpers exist in several copies with identical code, and each is modelled once:
- `modify_chr`, `modify_chrom` and `remove_chr` are in `ChromNames`.
- `collapse` from helper/CNV_cluster.py, helper/CNV_call.py and helper/CNV_annotate.py is in `Collapse`.
- `get_seg` and `mutate_log_lvl` from CNV_cluster.py and CNV_call.py are in `Segments`.

How the model is built:
- **Data.** A pandas DataFrame is a sequence of records.
- **Grouping.** A `groupby` visits its keys in ascending order.
- **DBSCAN.** It is a function parameter: any labeller that returns one label ≥ -1 per point.
- **Loops.** Where the source loops and appends or writes columns in place, the model is a method, proved equal to a specification function, and the properties are proved about that function.
  - Examples: the query builders, the cluster-counter loop, the collapse pass over an `array`, and the extraction line loop.

Where the code and its documentation disagree, the model follows the code. Three places where the code evidently does not do what was meant are listed under Findings. The members involved take a `fixed` flag: with `fixed = false` they compute what the code computes, and with `fixed = true` they compute the evidently intended result.

## Model

| member | source | states |
|---|---|---|
| Snf2Calls.Entry | helper/snf2_cluster.py:50-51 | an INFO item with '=' is split at its first '=' (key without '=', key + "=" + value gives the item back); an item without '=' is a flag |
| Snf2Calls.LastIndex | helper/snf2_cluster.py:50-51 | the index of the last entry with a given key, or none exactly when no entry has that key |
| Snf2Calls.InfoDictLastWins | helper/snf2_cluster.py:50-51 | dict() over the entries holds a key iff some entry has it, and then holds the value of the last such entry |
| Snf2Calls.NextBracket | helper/snf2_cluster.py:61 | the first '[' or ']' at or after a position, with none skipped |
| Snf2Calls.FirstBracketed | helper/snf2_cluster.py:61 | re.search of a bracket, one or more non-brackets, a bracket: the match found is a match, and no match starts further left |
| Snf2Calls.BracketExample | helper/snf2_cluster.py:61-63 | the ALT "N[chr2:321[" names the mate "chr2:321" |
| Snf2Calls.ParseLine | helper/snf2_cluster.py:41-76 | a line is skipped iff it starts with '#'; a call carries the subject's pt_id, family, project, is_proband and system; SV_len is never negative; a non-BND call has chrom2 == chrom1 and a BND call has SV_len 0 |
| Snf2Calls.CallFields | helper/snf2_cluster.py:43-72 | every call: chrom1 is field 0 without 'chr', pos1 is int(field 1), SV_id is field 2, SV_type is INFO's SVTYPE or 'UNK', genotype is the last field's first ':'-piece |
| Snf2Calls.LineFails | helper/snf2_cluster.py:38-78 | a line raises iff it is a data line with fewer than eight fields, a non-integer pos1, a non-integer SVLEN or END on a non-BND call, or a BND mate without ':' or with a non-integer position |
| Snf2Calls.NonBndCall | helper/snf2_cluster.py:43-58 | a non-BND call: chrom1 is field 0 without 'chr', pos1 is field 1, chrom2 is chrom1, pos2 is END or pos1 + SV_len |
| Snf2Calls.BndCall | helper/snf2_cluster.py:59-67 | a BND call: SV_len 0; with a bracketed mate chrom2/pos2 come from the mate's 'chrom:pos', without one they are chrom1/pos1 |
| Snf2Calls.ParseLines | helper/snf2_cluster.py:39-76 | every call read from a file carries the subject's pt_id and system |
| Snf2Calls.ParseLinesShape | helper/snf2_cluster.py:38-78 | a file parses iff every line parses, and then gives one call per line not starting with '#' |
| Snf2Calls.ParseErrorSticks | helper/snf2_cluster.py:38-78 | once a line fails, the whole file fails (the except returns nothing for the file) |
| Snf2Calls.SubjectCalls | helper/snf2_cluster.py:28-80 | a reference other than hg38/hg19 gives no rows; every row belongs to the subject |
| Lines.GatherShape | helper/snf2_cluster.py:38-78 | for any line parser, a file is read iff every line parses, and then holds one value per line the parser does not skip |
| Lines.GatherErrorSticks | helper/P2_cluster.py:89-103 | once a line raises, reading the file gives that line's error whatever the later lines hold |
| Lines.GatherKeeps | helper/snf2_cluster.py:39-76 | whatever the parser promises of each value it keeps holds of every value read from the file |
| Snf2Calls.ParseSingleVcf | helper/snf2_cluster.py:21-80 | the line loop returns exactly SubjectCalls: the hg38 path with 'Revio' or the hg19 path with 'SII', nothing for a missing path or file, nothing on any error |
| P2Calls.ArtifactWindows | helper/P2_cluster.py:106-117 | only hg19 and hg38 have an artifact window, and each spans 486 bases |
| P2Calls.ReadCall | helper/P2_cluster.py:91-119 | a line is skipped iff it starts with '#'; a call carries the subject's pt_id, family, project, is_proband and system, and its chrom2 holds no 'chr' |
| P2Calls.ParseLine | helper/P2_cluster.py:91-120 | no kept call touches the artifact window |
| P2Calls.ArtifactSkip | helper/P2_cluster.py:105-117 | a readable line is skipped iff it is a '#' line or its call lies on chromosome 2 at both ends with pos1 or pos2 in the window; otherwise the call read is kept unchanged |
| P2Calls.CallFields | helper/P2_cluster.py:94-103 | the offsets of a kept call: chrom1 is field 0 from character 3, pos1 is field 1, SV_type is INFO entry 3 from character 7, pos2 is INFO entry 6 after its last '=' |
| P2Calls.ParseLines | helper/P2_cluster.py:88-120 | every call read from a file carries the subject's pt_id and none touches the artifact window |
| P2Calls.LineErrorSticks | helper/P2_cluster.py:89-103 | once a line raises, reading the file raises that error |
| P2Calls.ReadSubjects | helper/P2_cluster.py:78-120 | no row of the cohort touches the artifact window |
| P2Calls.ReadAll | helper/P2_cluster.py:15-71 | a reference other than hg19/hg38 raises NameError (chrom_size is never bound) |
| P2Calls.SubjectErrorSticks | helper/P2_cluster.py:78-88 | once a subject's file raises, the whole read raises that error |
| P2Calls.ReadSubjectsOk | helper/P2_cluster.py:84-88 | the read succeeds iff every subject with a path has a file whose lines all parse (subjects with an empty path are skipped) |
| P2Calls.RowsFromSubjects | helper/P2_cluster.py:78-119 | every row comes from a metadata subject that has a path |
| P2Calls.ReadFile | helper/P2_cluster.py:88-120 | the line loop returns exactly ParseLines of the file |
| P2Calls.GetP2Rows | helper/P2_cluster.py:75-122 | the subject loop returns exactly ReadAll of the metadata |
| Freq.Count | helper/snf2_cluster.py:137 | a count of kept rows never exceeds the number of rows |
| Freq.PtsMember | helper/snf2_cluster.py:142 | every kept row contributes its pt_id to the distinct-individual set |
| Freq.PtsWithinCount | helper/snf2_cluster.py:137-142 | a set of rows has no more distinct individuals (nunique) than rows (count) |
| Freq.PtsMonotone | helper/snf2_cluster.py:149-155 | a filter that keeps fewer rows sees no more individuals |
| Freq.TotalPtPositive | helper/snf2_cluster.py:133-144 | a non-empty table has at least one individual, so total_pt and nsub are never zero |
| Freq.UniqueWithinCount | helper/snf2_cluster.py:137-143 | unique_pt_id_count is at least 1 and at most count, noise rows included |
| Freq.PseudoFreqRange | helper/snf2_cluster.py:142-145 | psuedo_df_freq lies in (0, 1] |
| Freq.StatsBounds | helper/P2_cluster.py:160-173 | the per-row statistics: 1 <= unique_pt_id_count <= count, psuedo_df_freq in (0, 1], cluster_propensity positive, and a noise row has count 1 and one individual |
| Freq.StatsPerCluster | helper/P2_cluster.py:164-173 | two rows of the same cluster carry the same statistics |
| Freq.PropensityCanExceedOne | helper/P2_cluster.py:164-166 | cluster_propensity is not a frequency: two calls of one individual in one cluster give 2.0 |
| Freq.ProbandWithinUnique | helper/add_proband_freq.py:17-32 | proband_only_count never exceeds unique_pt_id_count, so nonproband_only_count is never negative |
| Freq.ProbandWithinTotal | helper/add_proband_freq.py:11-27 | proband_only_count never exceeds total_proband_pt |
| Freq.RatioAtMostOne | helper/add_proband_freq.py:30-33 | a count within its total gives a propensity in [0, 1] |
| Freq.AddFreq | helper/add_proband_freq.py:7-36 | the new columns of every row are AddedRow: proband_only_count from the per-cluster proband dictionary (1/0 for noise), the propensities, nonproband_only_count and the UUID |
| Freq.ProbandDict | helper/add_proband_freq.py:17-22 | the dictionary holds, for each non-noise cluster with a proband, exactly its distinct proband pt_ids; a cluster missing from it has none |
| Freq.AddFreqBounds | helper/add_proband_freq.py:29-33 | on a consistent table nonproband_only_count is never negative and proband_only_propensity lies in [0, 1] |
| Freq.UuidSplits | helper/add_proband_freq.py:35 | when no field holds '_', splitting the UUID at '_' gives back chrom1, pos1, chrom2, pos2, SV_id and pt_id |
| Freq.UuidAmbiguous | helper/add_proband_freq.py:35 | a '_' inside SV_id or pt_id lets two different calls share one UUID |
| Relabel.CountKey | helper/snf2_cluster.py:113-118 | a group never has more rows than the table |
| Relabel.GroupPoints | helper/snf2_cluster.py:117-118 | X = group[features] has one point per row of the group |
| Relabel.RankBound | helper/snf2_cluster.py:113-118 | a row's rank within its group is less than the group's size |
| Relabel.GroupPointAtRank | helper/snf2_cluster.py:117-118 | the group's point list, in row order, holds row i's point at row i's rank |
| Relabel.GroupLabels | helper/snf2_cluster.py:121-123 | fit_predict gives one label of at least -1 per row of the group |
| Relabel.LocalLabel | helper/snf2_cluster.py:123 | a row's DBSCAN label is at least -1 |
| Relabel.MaxNew | helper/snf2_cluster.py:124-127 | group['cluster'].max() is at least every relabelled id of the group |
| Relabel.MaxNewAttained | helper/snf2_cluster.py:127 | the maximum is attained by some row of the group |
| Relabel.MaxNewSnoc | helper/snf2_cluster.py:127 | the maximum over one more label is the larger of the old maximum and the new id |
| Relabel.CounterFloor | helper/P2_cluster.py:155-156 | cluster_counter never drops below -1 |
| Relabel.CounterIncreasing | helper/P2_cluster.py:149-156 | while every type group has a non-noise row, cluster_counter strictly rises from group to group |
| Relabel.CounterFixedMonotone | helper/P2_cluster.py:156 | a counter that is only ever raised never falls |
| Relabel.CounterFixedAgrees | helper/P2_cluster.py:156 | when every group has a non-noise row, the raised-only counter equals the source's counter |
| Relabel.IdsApart | helper/P2_cluster.py:155-156 | when every group has a non-noise row, every id of an earlier group is below every id of a later group |
| Relabel.FixedIdsApart | helper/P2_cluster.py:155-156 | with the raised-only counter, ids of different groups are apart for any labels |
| Relabel.GroupKeysDistinct | helper/snf2_cluster.py:113-115 | groupby('SV_type') visits each type once |
| Relabel.GroupKeysCover | helper/snf2_cluster.py:113-115 | every row's type is visited |
| Relabel.GroupKeysOccur | helper/snf2_cluster.py:113-115 | only types that occur are visited, so no group is empty |
| Relabel.GroupKeysAscending | helper/snf2_cluster.py:113-115 | the types are visited in ascending order |
| Relabel.LabelsByGroup | helper/snf2_cluster.py:115-123 | one non-empty label list per visited type, in visiting order, each DBSCAN's labels for that group |
| Relabel.GroupOf | helper/snf2_cluster.py:115 | the position of a row's type in the visiting order |
| Relabel.GroupOfKey | helper/snf2_cluster.py:115 | a row is in the k-th group iff its type is the k-th visited type |
| Relabel.RowLabels | helper/snf2_cluster.py:118-123 | a row's label is its group's label at the row's rank |
| Relabel.CollectGroup | helper/snf2_cluster.py:117-118 | the loop collecting a group returns exactly that group's points |
| Relabel.GroupIndex | helper/snf2_cluster.py:129 | group.index: exactly the rows of the type, ascending, one per row |
| Relabel.IndexAtRank | helper/snf2_cluster.py:129 | row i sits in its group's index at its rank |
| Relabel.WriteGroup | helper/snf2_cluster.py:124-129 | df.loc[group.index, 'cluster'] writes the relabelled id into the group's rows, leaves other rows unchanged, and returns the group maximum |
| Relabel.AssignClusters | helper/snf2_cluster.py:109-129 | the group loop gives every row the id ClusterOf: its DBSCAN label shifted past the counter of the groups before it |
| Relabel.AssignClustersFixed | helper/snf2_cluster.py:109-129 | the same loop with the counter only ever raised gives every row ClusterOfFixed |
| Relabel.NoiseStaysNoise | helper/snf2_cluster.py:124 | a row gets id -1 iff DBSCAN called it noise |
| Relabel.IdWithinGroupRange | helper/snf2_cluster.py:124-127 | a non-noise id lies above the counter before its group and at most the counter after it |
| Relabel.LaterGroupsHigherIds | helper/P2_cluster.py:149-157 | when every group has a non-noise row, a row of a later group has a higher id |
| Relabel.FixedLaterGroupsHigherIds | helper/P2_cluster.py:149-157 | with the raised-only counter a later group's ids are higher for any labels |
| Relabel.FixedAgrees | helper/P2_cluster.py:155-156 | the raised-only counter changes no id when no type group is all noise |
| Relabel.CollisionKeys | helper/P2_cluster.py:148-149 | the counterexample's types are visited as DEL, DUP, INV |
| Relabel.CollisionGroups | helper/P2_cluster.py:152-154 | the counterexample's DBSCAN labels per group are [0, 0], [-1] and [0, 0, 1, 1] |
| Relabel.CollisionCounters | helper/P2_cluster.py:155-156 | in the counterexample the counter falls from 1 to -1 after the all-noise DUP group |
| Relabel.AllNoiseGroupCollision | helper/P2_cluster.py:155-157 | a DEL row and an INV row get the same cluster id 1 after an all-noise group |
| Relabel.FixedCollisionApart | helper/P2_cluster.py:155-157 | with the raised-only counter the same rows get ids 1 and 3 |
| SvCluster.Place | helper/snf2_cluster.py:99-107 | the two merges keep a call iff both its chromosomes are in the size table, and add its cum positions |
| SvCluster.PlacedInjective | helper/snf2_cluster.py:106 | two calls within their chromosomes with the same cum_pos1 have the same chrom1 and pos1 |
| SvCluster.Linearise | helper/snf2_cluster.py:99-107 | the merged table holds only calls of the input, each placed by Place |
| SvCluster.LineariseComplete | helper/snf2_cluster.py:99-104 | no call whose chromosomes are both in the size table is dropped |
| SvCluster.Ids | helper/snf2_cluster.py:109-129 | the cluster column has one id per row: with fixed = false the relabelling as written (Relabel.ClusterOf, the counter set to each group's max()), with fixed = true the raised-only relabelling of Findings row 1 |
| SvCluster.MembersOf | helper/snf2_cluster.py:133-145 | the statistics read each row's cluster, pt_id and is_proband |
| SvCluster.Clustered | helper/snf2_cluster.py:113-137 | an empty table raises KeyError (no group runs, so no cluster column exists); otherwise one row per placed call, in order, with the ids of Ids |
| SvCluster.ClusterRows | helper/snf2_cluster.py:109-164 | the clustering loop returns exactly Clustered; with fixed = false it runs Relabel.AssignClusters, the counter as written |
| SvCluster.RowBounds | helper/snf2_cluster.py:137-164 | every row: 1 <= unique_pt_id_count <= count, psuedo_df_freq in (0, 1], noise rows count 1, proband_only_count within unique_pt_id_count and nonproband_only_count not negative |
| SvCluster.SameClusterSameStats | helper/snf2_cluster.py:137-163 | two rows of the same numbered cluster carry the same count, frequency and proband columns |
| SvCluster.ClusterSingleType | helper/snf2_cluster.py:113-129 | two rows of the same numbered cluster have the same SV type: always with the raised-only counter, and with the counter as written when no type group is all noise (Relabel.AllNoiseGroupCollision shows the other case) |
| SvCluster.RowsPlaced | helper/snf2_cluster.py:99-104 | every clustered row comes from the input and both its chromosomes are in the size table |
| SvCluster.GetP2Df | helper/P2_cluster.py:13-174 | get_P2_df returns exactly P2Result: read, merge, cluster, count; with fixed = false these are the program's ids, with the max() counter of line 156 |
| SvCluster.P2RowsPlaced | helper/P2_cluster.py:15-139 | every row of get_P2_df is from hg19 or hg38, has both chromosomes in the size table and avoids the artifact window |
| SvCluster.CnvApplyDbscan | helper/CNV_cluster.py:116-223 | apply_DBSCAN: NameError for a build other than hg19/hg38, else both merges on chrom1 and the shared clustering without proband columns; with fixed = false the counter is line 205's max() |
| SvCluster.CnvCallApplyDbscan | helper/CNV_call.py:111-187 | the earlier apply_DBSCAN: hg19 sizes, both merges on chrom1, the shared clustering; with fixed = false the counter is line 169's max() |
| SvCluster.SecondKeyIrrelevant | helper/CNV_cluster.py:179-188 | joining the second merge on chrom1 places calls exactly as a join on chrom2 would when both ends are on one chromosome |
| SvCluster.CnvSecondJoinHarmless | helper/CNV_cluster.py:179-188 | for read-depth calls the chrom1 join of the second merge is harmless |
| Segments.Rle | helper/CNV_cluster.py:48 | rle.encode gives maximal runs: none for no bins, each at least one bin long, neighbouring runs of different levels, the last run at the last bin's level |
| Segments.RleRoundTrip | helper/CNV_cluster.py:48 | decoding the runs gives the bins back |
| Segments.ExpandLength | helper/CNV_cluster.py:49 | the runs cover sum(lengths) bins |
| Segments.ExpandAt | helper/CNV_cluster.py:49-54 | every bin between end_indices[i-1] and end_indices[i] has run i's level |
| Segments.EndsMonotone | helper/CNV_cluster.py:49 | the running sums end_indices never decrease |
| Segments.GetSeg | helper/CNV_cluster.py:34-60 | a chromosome with no bins raises (the frame's columns differ in length); otherwise one segment per run, every one on that chromosome |
| Segments.SegmentsCover | helper/CNV_cluster.py:49-57 | the segments start at 0 and end at 1000 times the number of bins |
| Segments.SegmentShape | helper/CNV_cluster.py:49-58 | each segment is 1000 bp per bin of its run, len == end - start >= 1000, and it ends where the next one starts, at a different level |
| Segments.SegmentLevels | helper/CNV_cluster.py:49-58 | every bin inside a segment has the segment's log2r |
| Segments.ChromList | helper/CNV_cluster.py:67 | chr1 .. chr22 then chrX, 23 names |
| Segments.AllSeg | helper/CNV_cluster.py:62-71 | every segment lies on a listed chromosome |
| Segments.AllSegFails | helper/CNV_cluster.py:68-71 | get_all_seg fails iff some listed chromosome has no bins |
| Segments.AllSegErrorSticks | helper/CNV_cluster.py:68-70 | a failing chromosome fails the whole loop with its error |
| Segments.GetAllSeg | helper/CNV_cluster.py:62-71 | the chromosome loop returns exactly AllSeg over chr1 .. chrX |
| Segments.GainLossDisjoint | helper/CNV_cluster.py:96-98 | no segment passes both the gain and the loss filter |
| Segments.MutateLogLvl | helper/CNV_cluster.py:73-85 | the level is one of the six labels or UND |
| Segments.BandsDisjoint | helper/CNV_cluster.py:74-81 | no log2 ratio lies in two bands, so np.select's first match is the only match |
| Segments.LevelIff | helper/CNV_cluster.py:73-85 | the level is label k iff the ratio is in band k, and UND iff it is in no band |
| Segments.Log2OfThreeHalvesIsDup | helper/CNV_cluster.py:78-83 | a ratio of 0.58 (about log2 of 3/2) is DUP |
| Segments.ThresholdLevels | helper/CNV_cluster.py:73-98 | a gain segment is never NML, HET_DEL or HOM_DEL; a loss segment never NML, DUP, TRP or MUL_GAIN |
| Segments.SelectIff | helper/CNV_cluster.py:96-98 | a segment is selected iff it is in y and passes the filter |
| Segments.CalledAt | helper/CNV_call.py:94-102 | the calls are the gains in order, then the losses in order, each with its level |
| Segments.CalledSound | helper/CNV_call.py:94-102 | every call is a segment of y passing its type's filter, with cnv_lvl its level |
| Segments.CalledComplete | helper/CNV_call.py:94-101 | every gain and every loss segment becomes a call |
| Segments.GetAllCnv | helper/CNV_cluster.py:87-107 | one row per call of the earlier revision, ids added |
| Segments.CalledKinds | helper/CNV_cluster.py:97-102 | the type column is gain for the first rows and loss after |
| Segments.WithIdsAt | helper/CNV_cluster.py:103-105 | row i's id is type + '_' + zfill(5) of one more than the earlier rows of its type |
| Segments.SvIdInjective | helper/CNV_cluster.py:104-105 | different numbers give different ids within one type |
| Segments.GainIsNotLoss | helper/CNV_cluster.py:105 | a gain id is never a loss id |
| Segments.GainIds | helper/CNV_cluster.py:103-105 | the gains are numbered gain_00001, gain_00002, ... in row order |
| Segments.LossIds | helper/CNV_cluster.py:103-105 | the losses are numbered loss_00001, ... after the gains |
| Segments.GainIdsDistinct | helper/CNV_cluster.py:103-105 | two gains get different ids |
| Segments.GainLossIdsDistinct | helper/CNV_cluster.py:103-105 | a gain and a loss get different ids |
| Segments.LossIdsDistinct | helper/CNV_cluster.py:103-105 | two losses get different ids |
| Segments.SvIdsDistinct | helper/CNV_cluster.py:103-105 | the SV ids of one sample's calls are all different |
| Collapse.GroupMax | helper/CNV_cluster.py:235 | a group's largest id exists iff the group has a row |
| Collapse.GroupMaxBound | helper/CNV_cluster.py:235 | the new id is at least every id of the group |
| Collapse.GroupMaxAttained | helper/CNV_cluster.py:235 | the new id is the id of some row of the group |
| Collapse.GroupMinBound | helper/CNV_cluster.py:227-228 | a group's smallest id is at most every id of the group |
| Collapse.GroupMinAttained | helper/CNV_cluster.py:227-228 | the smallest id is the id of some row of the group |
| Collapse.GroupRangeAgree | helper/CNV_cluster.py:234-235 | a group's extremes depend only on its own rows' ids |
| Collapse.MixedIff | helper/CNV_cluster.py:227-228 | len(unique) > 1 holds iff two rows of the group have different ids |
| Collapse.CollapsedIdIsGroupMax | helper/CNV_cluster.py:229-236 | a row keeps its id unless its group is mixed and not exempt, and is then moved to the group's largest id; ids only rise, and every new id is an id of the group |
| Collapse.CollapsedUniform | helper/CNV_cluster.py:229-236 | after the pass a merged group carries a single id |
| Collapse.CollapseIdempotent | helper/CNV_cluster.py:225-236 | a second pass changes nothing |
| Collapse.GroupRange | helper/CNV_cluster.py:227-235 | the scan over the cluster array returns the group's smallest and largest ids |
| Collapse.Assign | helper/CNV_cluster.py:234-236 | df.loc[idx_, 'cluster'] = new_id writes the id into exactly the group's rows |
| Collapse.CollapseGroups | helper/CNV_cluster.py:227-236 | the in-place pass over the distinct groups leaves the cluster array equal to Collapsed of its old contents |
| Collapse.DistinctKeys | helper/CNV_cluster.py:227 | every key of the table once, and nothing else |
| Collapse.CollapseCalls | helper/CNV_cluster.py:225-253 | collapse returns exactly CollapseResult: the merged ids, then the statistics recomputed over them |
| Collapse.CollapseResultBounds | helper/CNV_cluster.py:239-253 | after the collapse every row keeps its key, pt_id and is_proband, and its statistics satisfy 1 <= unique_pt_id_count <= count and psuedo_df_freq in (0, 1], noise counting 1 |
| Collapse.AsWrittenSkipsRightDisruption | helper/CNV_cluster.py:231 | as written, the skip test reads the left key twice: two DEL calls with no left but the same right disruption and ids 3 and 7 stay apart |
| Collapse.FixedMergesRightDisruption | helper/CNV_cluster.py:231 | testing left and right merges the same calls to 7 |
| Collapse.FixedExemptsOnlyUndisrupted | helper/CNV_cluster.py:230-232 | the corrected test exempts exactly the calls with no disruption on either side, a subset of those the written test exempts |
| Annotate.Where | helper/P2_annotate.py:60 | a boolean-mask selection keeps no more rows than the table |
| Annotate.WhereIff | helper/P2_annotate.py:60 | the selection holds exactly the table's rows that the mask keeps |
| Annotate.WhereAppend | helper/P2_annotate.py:60 | selecting from two tables one after the other is the two selections one after the other, so table order is kept |
| Annotate.NameColumn | helper/P2_annotate.py:65 | tolist() of a column gives one value per selected row, in order |
| Annotate.NamesIff | helper/P2_annotate.py:131-139 | a name is reported iff some row the mask keeps carries it |
| Annotate.AnnotateSd | helper/P2_annotate.py:26-45 | the SD loop returns true iff the call is not a BND, not a point, and some SD row on its chromosome covers at least 98% of it |
| Annotate.ContainedCallOverlapsSd | helper/P2_annotate.py:36-44 | a call lying inside one SD interval is flagged |
| Annotate.DisjointCallNotSd | helper/P2_annotate.py:34-37 | a call touching no SD interval of its chromosome is not flagged |
| Annotate.Omim | helper/P2_annotate.py:56-69 | the three OMIM columns are aligned and no longer than the table |
| Annotate.OmimReports | helper/P2_annotate.py:56-69 | BND or point calls report nothing; otherwise a symbol is reported iff an OMIM row strictly overlaps the call, and each reported triple comes from one such row |
| Annotate.Gnomad | helper/P2_annotate.py:76-90 | ids and frequencies are aligned and no longer than the table |
| Annotate.GnomadReports | helper/P2_annotate.py:76-90 | only DUP, DEL and INV calls that are not points look up; an id is reported iff a row of that type and chromosome has both breakpoints within 1000 bp, with that row's af beside it |
| Annotate.Dgv | helper/P2_annotate.py:97-114 | ids and frequencies are aligned and no longer than the table |
| Annotate.DgvReports | helper/P2_annotate.py:97-114 | only DUP and DEL calls that are not points look up; an id is reported iff a row of that type lies inside the call with both ends within 1000 bp, with its af beside it |
| Annotate.RefSeq | helper/P2_annotate.py:121-141 | a BND call reports no overlapping genes |
| Annotate.RefSeqReports | helper/P2_annotate.py:121-141 | a point call reports nothing; a non-BND call reports the genes it overlaps and nothing at all when it overlaps none; otherwise the left and right lists are exactly the genes spanning each breakpoint |
| Annotate.BreakendAlwaysLooksUp | helper/P2_annotate.py:126-138 | a BND call still reports the gene spanning its first breakpoint |
| Annotate.BreakpointGeneReported | helper/P2_annotate.py:127-139 | a non-BND call overlapping a gene reports it, and reports the gene spanning its start as disrupted on the left |
| Annotate.RepeatMask | helper/P2_annotate.py:148-155 | neither list is longer than the table |
| Annotate.RepeatMaskReports | helper/P2_annotate.py:148-155 | the left list is exactly the repeats spanning the first breakpoint and the right list those spanning the second |
| Annotate.RepeatMaskPd | util/polars_test.py:42-50 | the pandas version's lists are no longer than the table |
| Annotate.RepeatMaskPdAgrees | util/polars_test.py:42-50 | the pandas and the polars versions report the same lists in the same order |
| Annotate.ClinGen | helper/CNV_annotate.py:321-334 | a point call reports nothing; the list is no longer than the table |
| Annotate.ClinGenReports | helper/CNV_annotate.py:321-334 | a region is reported iff it lies strictly inside the call |
| Annotate.Capped | helper/CNV_annotate.py:308-315 | a capped ratio is at most 1 and unchanged below 1 |
| Annotate.Fractions | helper/CNV_annotate.py:298-316 | ZeroDivisionError iff some overlapping row has zero length; otherwise one capped fraction of the row and one of the call per row |
| Annotate.AnnotateOverlap | helper/CNV_annotate.py:285-319 | a point call gives the bare [] and only a point call does; the three lists are aligned and every fraction is at most 1 |
| Annotate.OverlapReports | helper/CNV_annotate.py:285-319 | the overlap fails iff an overlapping row has zero length; a syndrome is reported iff its region strictly overlaps the call |
| Annotate.CapNeverFires | helper/CNV_annotate.py:301-316 | for proper intervals both fractions already lie in (0, 1], so the cap never changes them |
| AnnotateCalls.JoinedRecoverable | helper/P2_annotate.py:197-217 | a ';'-joined column is "" for an empty list, and splitting it at ';' gives the list back when no entry holds ';' |
| AnnotateCalls.AnnotateP2 | helper/P2_annotate.py:158-238 | the row loop gives one annotation per call, in order, each the fifteen columns of P2Row: SD flag, OMIM, RefSeq, RepeatMask, gnomAD and DGV lists ';'-joined with their counts |
| AnnotateCalls.P2CountsMatchSymbols | helper/P2_annotate.py:195-203 | OMIM_Count and RefSeq_Count are the number of ';'-separated symbols in their columns, and an empty symbol column goes with a count of 0 |
| AnnotateCalls.CarriedType | helper/CNV_annotate.py:227-230 | SV_type is bound once the first call is a gain or a loss |
| AnnotateCalls.CarriedTypeUnset | helper/CNV_annotate.py:227-230 | SV_type is unbound at row i iff no call up to i is a gain or a loss |
| AnnotateCalls.CarriedTypeLatest | helper/CNV_annotate.py:227-230 | SV_type at row i is that of the latest gain or loss up to i |
| AnnotateCalls.TypedRows | helper/CNV_annotate.py:219-248 | the loop's first n rows are n rows |
| AnnotateCalls.TypedRowsAt | helper/CNV_annotate.py:219-248 | row k is annotated with the SV_type carried to row k |
| AnnotateCalls.CnvRows | helper/CNV_annotate.py:219-248 | one annotated row per call up to n |
| AnnotateCalls.CnvRowsAt | helper/CNV_annotate.py:224-248 | row k holds the RefSeq columns of call k on its one chromosome, with the carried SV_type |
| AnnotateCalls.AnnotateCnv | helper/CNV_annotate.py:193-282 | NameError iff the first call is neither gain nor loss (SV_type is unbound there); otherwise one row per call, chrom1 dropped, RefSeq columns added |
| AnnotateCalls.Shown | helper/CNV_annotate.py:310-316 | the fractions become one text per fraction |
| AnnotateCalls.Unpack | helper/CNV_annotate.py:397 | unpacking the bare [] of a point call into three names fails, and only that fails |
| AnnotateCalls.Step2Row | helper/CNV_annotate.py:373-406 | a point call fails with ValueError |
| AnnotateCalls.Step2RowFails | helper/CNV_annotate.py:301-406 | a call that is not a point fails iff a syndrome or ISCA region overlapping it has zero length, and then with ZeroDivisionError |
| AnnotateCalls.AnnotateStep2 | helper/CNV_annotate.py:336-425 | the row loop returns exactly Step2Rows: the rows' annotations in order, stopping at the first row that raises |
| AnnotateCalls.Step2RowsMeans | helper/CNV_annotate.py:336-425 | on success one annotation per row, each that row's Step2Row; on failure the error of the first failing row, every earlier row having succeeded |
| Cgr.Candidates | helper/CGR_cluster.py:28-29 | the candidates are exactly the SVs spanning more than 1000 bp, in table order |
| Cgr.ClosestIn | helper/CGR_cluster.py:38-41 | idxmin over the SVs of a chromosome: none iff the chromosome has no SV, else an SV on it |
| Cgr.ClosestInLeast | helper/CGR_cluster.py:39-41 | the index found has the least distance, and is the first such index |
| Cgr.Pick | helper/CGR_cluster.py:36-45 | a candidate is picked iff the chromosome has one, and it lies on that chromosome |
| Cgr.PickNearest | helper/CGR_cluster.py:38-45 | the picked SV has an end nearest to the position among all SVs on the chromosome |
| Cgr.PickTieGoesToEnd | helper/CGR_cluster.py:42-45 | when the nearest SV end is no farther than any SV start, the end's index is picked (a tie goes to the end) |
| Cgr.ProcessCnv | helper/CGR_cluster.py:26-82 | KeyError iff some CNV's chromosome has no candidate; otherwise one row per CNV with the SVs picked for its start and its end and the match flags; with fixed = false right_dist is measured from the CNV's start, as line 74 does |
| Cgr.MatchOfNearest | helper/CGR_cluster.py:36-74 | both SVs of a row are candidates on the CNV's chromosome, the left one has an end nearest the CNV's start and the right one an end nearest its end, and left_dist is the least distance from the start; as written right_dist is the right SV's distance from the start, corrected it is the least distance from the end |
| Cgr.CnvSvMatchMeans | helper/CGR_cluster.py:77-82 | match_CNV_SV holds iff both sides name one SV, the left SV has the CNV's type (gain with DUP, loss with DEL) and its width is within 2000 bp of the CNV's length; then the CNV is a gain or a loss |
| Cgr.RightDistFromStartMisses | helper/CGR_cluster.py:74 | as written, right_dist measures from the CNV's start: a CNV ending where its only SV ends gets right_dist 98000 instead of 0 |
| ChromNames.ModifyChr | helper/vizCNV_snippet.py:26-30 | the result starts with 'chr'; it is the name unchanged iff the name starts with 'chr', else 'chr' + name (modify_chr in CNV_cluster.py, CNV_call.py and CGR_cluster.py is the same code) |
| ChromNames.RemoveChr | helper/CNV_call.py:8-12 | a name not starting with 'chr' is unchanged; otherwise the result is split('chr')[1]: the text after the leading 'chr' up to the next 'chr' or the end, holding no 'chr' itself |
| ChromNames.ModifyChrIdempotent | helper/CGR_cluster.py:9-13 | adding the prefix twice is adding it once |
| ChromNames.RemoveModifyRoundTrip | helper/CNV_cluster.py:9-19 | remove_chr undoes modify_chr on a name holding no 'chr' |
| ChromNames.ModifyRemoveRoundTrip | helper/CNV_cluster.py:9-19 | modify_chr undoes remove_chr on a 'chr' name with no second 'chr' |
| ChromNames.RemoveChrStopsAtSecond | helper/CNV_call.py:10 | split('chr')[1] stops at a second 'chr': "chr1chr2" becomes "1" |
| Genome.SizeTable | helper/snf2_cluster.py:86-94 | a size table exists iff the build is hg19 or hg38; it has 24 chromosomes, each listed once |
| Genome.Names | helper/snf2_cluster.py:92 | the Chromosome column, row by row |
| Genome.TablesDuplicateFree | helper/snf2_cluster.py:89-90 | each chromosome is listed once in each table |
| Genome.CumSizeOrdered | helper/snf2_cluster.py:93 | cum_size of a later row is at least cum_size plus size of an earlier row |
| Genome.IndexOf | helper/snf2_cluster.py:99 | the merge finds the first row naming the chromosome, or none iff no row does |
| Genome.Offset | helper/snf2_cluster.py:99-101 | a chromosome has a cum_size iff it is in the table |
| Genome.LinearInjective | helper/snf2_cluster.py:106-107 | two positions within their chromosomes with the same cum position are the same position |
| Genome.OffsetOfRow | helper/snf2_cluster.py:93-101 | the cum_size the merge attaches to a chromosome is the sum of the sizes listed before it |
| Assemblies.Hg19DuplicateFree | helper/P2_cluster.py:17-41 | the hg19 table lists each chromosome once |
| Assemblies.Hg38DuplicateFree | helper/P2_cluster.py:44-69 | the hg38 table lists each chromosome once |
| Extract.LastWith | util/extract_gnomAD.py:16-26 | the last INFO entry with a prefix, or none iff no entry has it |
| Extract.ScanInfoLatest | util/extract_gnomAD.py:16-26 | after the INFO loop each variable holds the value of the last entry with its prefix, or what it held before the line when there is none; the gnomAD script keeps the line's own SV_id |
| Extract.Fields | util/extract_gnomAD.py:28 | an output line has 8 fields for gnomAD and 6 for TopMed, starting with the line's chromosome and position |
| Extract.ExtractCols | util/extract_gnomAD.py:11-30 | a data line is never skipped |
| Extract.ExtractLine | util/extract_VCF.py:10-11 | a line is skipped iff it starts with '#' |
| Extract.RunWithNext | util/extract_VCF.py:9-35 | each line continues the run with that line's result |
| Extract.RunStopsAtError | util/extract_VCF.py:9-35 | once a line raises, the script ends and later lines change nothing |
| Extract.ReadLine | util/extract_VCF.py:13-33 | the per-line code gives exactly ExtractLine, with the INFO loop as a for loop |
| Extract.ExtractFile | util/extract_VCF.py:8-35 | the script writes exactly RunUpTo's lines and stops with its error |
| Extract.DataLines | util/extract_VCF.py:9-11 | no more data lines than lines |
| Extract.LineStepSkipsComments | util/extract_gnomAD.py:8-9 | both scripts skip exactly the '#' lines |
| Extract.OneLinePerDataLine | util/extract_gnomAD.py:7-30 | a run without error writes one line per line not starting with '#' |
| Extract.LatestTabFree | util/extract_gnomAD.py:16-26 | values taken from tab-free entries hold no tab |
| Extract.WrittenLineFields | util/extract_gnomAD.py:28-30 | a written line is its fields joined by tabs plus a newline, and splitting it at tabs gives the fields back when no field holds a tab |
| Extract.FieldsTabFree | util/extract_VCF.py:33 | the output fields hold no tab when the inputs hold none |
| Extract.FirstLineNeedsEntries | util/extract_VCF.py:18-33 | the first data line raises NameError iff its INFO lacks END=, SVTYPE= or AF= (or SVLEN= for gnomAD) |
| Extract.Pos2CarriesOver | util/extract_gnomAD.py:17-28 | pos2 written for a line is its own last END= value, or the previous line's when it has none |
| RefSeqTable.KeyColumn | util/extract_RefSeq.py:4 | the group-by key (gene_id, seqname) of each row |
| RefSeqTable.GroupKeys | util/extract_RefSeq.py:4 | the groups are exactly the (gene_id, seqname) pairs that occur, in ascending order |
| RefSeqTable.MinStart | util/extract_RefSeq.py:4 | the group's start is the least start of its rows, and is attained |
| RefSeqTable.MaxEnd | util/extract_RefSeq.py:4 | the group's end is the greatest end of its rows, and is attained |
| RefSeqTable.ExtractRefSeq | util/extract_RefSeq.py:4-11 | one output row per group |
| RefSeqTable.GroupKeysDistinct | util/extract_RefSeq.py:4 | no pair is output twice |
| RefSeqTable.SpanCovers | util/extract_RefSeq.py:4-11 | every input row lies within its pair's output span, which carries its gene and its chromosome without 'chr' |
| RefSeqTable.SpanAttained | util/extract_RefSeq.py:4 | each output span starts at a start and ends at an end of rows of its pair |
| RefSeqTable.ChromStripped | util/extract_RefSeq.py:11 | 'chr' + c becomes c when c holds no further 'chr' |
| GroupBy.StrLessSortKeyOrder | helper/snf2_cluster.py:113 | Python's order on str is a strict total order, so groupby's sorted keys are well defined |
| GroupBy.PairLessSortKeyOrder | util/extract_RefSeq.py:4 | tuple order on (str, str) is a strict total order |
| GroupBy.Keys | helper/snf2_cluster.py:113 | the keys groupby visits are ascending and are exactly the values of the column |
| GroupBy.StrKeys | helper/P2_cluster.py:148 | the SV types are visited ascending, each once, and only those that occur |
| Sql.AnyOfText | query/CNV_filters.py:510 | an OR group is written as its alternatives' texts joined by ' OR ' inside parentheses |
| Sql.ClausesSnoc | query/P2_filters.py:331-455 | appending one ' AND <condition>' to the query text appends that condition to the query's condition list |
| Sql.ClausesAppend | query/P2_filters.py:331-455 | the clauses of two condition lists, one after the other, are the clauses of the joined list |
| Sql.LimitValue | query/P2_filters.py:457-460 | num_rows 'All' becomes 184467440737095516, any other choice is kept |
| Sql.QueryShape | query/P2_filters.py:329-462 | every built query starts with its SELECT head and ends with its ' LIMIT n' clause |
| Sql.LimitDigits | query/P2_filters.py:457-461 | the closing clause is ' LIMIT ' followed by the decimal digits of the chosen count, or of 184467440737095516 for 'All' |
| SqlFilters.AddSite | query/P2_filters.py:331-341 | the text grows by the chromosome, start and end clauses of exactly the selectors that are given, in that order |
| SqlFilters.SiteMeans | query/CGR_filters.py:163-173 | the site clauses hold chrom = "<prefix>c" iff chrom1 is c, start >= n iff start is n, end <= n iff end is n |
| SqlFilters.OneClause | query/CGR_filters.py:179-181 | a single-clause block appends ' AND ' and its condition's text |
| SqlFilters.Extend | query/P2_filters.py:331-455 | a text equal to the head plus the clauses of a list, extended by one clause, is the head plus the clauses of the extended list |
| SqlFilters.AndAnyOf | query/CNV_filters.py:510 | the clause of an OR group is ' AND (' + the alternatives' texts joined by ' OR ' + ')' |
| SqlFilters.Grow | query/CNV_filters.py:497-508 | appending one alternative's text to the kept texts keeps them matching the alternatives one by one |
| SqlFilters.AddAmong | query/P2_filters.py:343-345 | a non-empty multiselect appends col IN ("v1", "v2", ...); an empty one appends nothing |
| SqlFilters.AddText | query/CGR_filters.py:179-181 | a chosen value appends col = "v"; none appends nothing |
| SqlFilters.AddValue | query/P2_filters.py:441-443 | a given number appends col = n; none appends nothing |
| SqlFilters.AddSize | query/P2_filters.py:347-353 | the minimum appends col >= min and the maximum col <= max, each only when given, minimum first |
| SqlFilters.FlagMeans | query/P2_filters.py:355-367 | the flag adds col = 1 iff it is 'True', col = 0 iff it is 'False', and nothing iff it is neither |
| SqlFilters.AddFlags | query/P2_filters.py:355-367 | the SD_Overlap flag's clause, then the is_proband flag's clause, each as FlagMeans states |
| SqlFilters.AddRanges | query/P2_filters.py:369-382 | count, database frequency and gnomAD frequency each append col BETWEEN lo and hi when set, in that order |
| SqlFilters.AddSymbols | query/P2_filters.py:407-413 | OMIM_Symbol and RefSeq_Symbol each append LIKE "%s%" when set |
| SqlFilters.Chain | query/P2_filters.py:331-455 | two blocks run one after the other append the clauses of their two condition lists, joined |
| SqlFilters.AddAnnotation | query/P2_filters.py:369-413 | the annotation block appends the range, project, OMIM count, RefSeq count and symbol clauses in the source's order |
| SqlFilters.AddGenotype | query/P2_filters.py:436-439 | 'Homozygous' appends genotype LIKE "1/1", 'Heterozygous' genotype LIKE "0/1", anything else nothing |
| SqlFilters.AddDisrupt | query/P2_filters.py:445-455 | one col IS NOT NULL clause per ticked disruption box, in the boxes' order |
| SqlFilters.AddDisruptGroup | query/CNV_filters.py:495-510 | when any disruption box is ticked, one clause ORing the ticked boxes' IS NOT NULL conditions; otherwise nothing |
| SqlFilters.AddDosageGroup | query/CNV_filters.py:512-533 | when any dosage box is ticked, one clause ORing the ticked boxes' IS NOT NULL conditions; otherwise nothing |
| SqlFilters.TickCount | query/CNV_filters.py:497-508 | one append step grows the list by one exactly when its box is ticked and keeps it made of IS NOT NULL conditions |
| SqlFilters.DisruptGroupMeans | query/CNV_filters.py:495-510 | the disruption group is present iff a box is ticked, and holds one IS NOT NULL condition per ticked box |
| SqlFilters.DosageGroupMeans | query/CNV_filters.py:512-533 | the dosage group is present iff a box is ticked, and holds one IS NOT NULL condition per ticked box |
| GeneClause.Genes | query/P2_filters.py:416 | the comma-separated gene text always yields at least one (possibly empty) gene name |
| GeneClause.Chunks | query/P2_filters.py:417 | every chunk of the gene list holds between 1 and 900 genes |
| GeneClause.ChunksFlatten | query/P2_filters.py:417 | the chunks, read one after the other, are exactly the gene list |
| GeneClause.ChunksSlices | query/P2_filters.py:417 | there are ceil(n / 900) chunks and chunk k is genes[900k .. min(900k + 900, n)] |
| GeneClause.Likes | query/P2_filters.py:422-424 | one RefSeq_Symbol LIKE "%g%" condition per gene, in gene order |
| GeneClause.Groups | query/P2_filters.py:421-425 | one OR group per chunk, holding that chunk's LIKE conditions |
| GeneClause.EveryGeneOnce | query/P2_filters.py:415-426 | the OR groups, read one after the other, hold exactly one LIKE condition per listed gene, in list order |
| GeneClause.FlattenLikes | query/P2_filters.py:421-425 | the LIKE conditions of the chunks, one after the other, are the LIKE conditions of the whole list |
| GeneClause.AddGenes | query/P2_filters.py:415-426 | a non-empty gene text appends one clause: the chunks' OR groups and the closing RefSeq_Symbol LIKE "", ORed; an empty one appends nothing |
| GeneClause.CloseGenes | query/P2_filters.py:420-426 | the text the nested loops leave is the head plus the one gene clause of AddGenes |
| GeneClause.CloserText | query/P2_filters.py:426 | the closing alternative is RefSeq_Symbol LIKE "" |
| GeneClause.ExpandHpo | query/P2_filters.py:321-327 | with HPO terms given, the gene text is their looked-up genes joined by ','; without, the typed gene text |
| GeneClause.HpoGenesFound | query/P2_filters.py:322-326 | a gene is listed iff pheno2gene returns it for one of the comma-separated, stripped HPO terms |
| GeneClause.HpoGenesDistinct | query/P2_filters.py:326 | no gene found through the HPO terms is listed twice |
| GeneClause.HpoGeneList | query/P2_filters.py:326-416 | the genes the clause matches are the HPO genes, stripped and upper-cased, in their listed order |
| GeneClause.HpoWithoutGenes | query/P2_filters.py:322-415 | HPO terms that map to no gene leave an empty gene text, so no gene clause is added |
| QueryBuild.CandidateClause | query/CGR_filters.py:221 | the CGR candidate clause is ' AND (left_dist <= 1500 OR right_dist <=1500) AND match_CNV_SV != 1' |
| QueryBuild.AddCollins | app.py:857-861 | the pHaplo and pTriplo boxes each append their own Collins IS NOT NULL clause when ticked |
| QueryBuild.Close | query/P2_filters.py:457-461 | appending ' LIMIT n' to the head and clauses gives the whole query |
| QueryBuild.CgrBuild | query/CGR_filters.py:159-229 | the CGR query is its join head, the site, level, type, length, flag, project, family, patient and cluster clauses, the candidate clause and the limit |
| QueryBuild.P2Build | query/P2_filters.py:321-462 | the SV query is its join head, then the site, type, length, flag, annotation, gene, family, patient, genotype, cluster and disruption clauses and the limit, the gene list replaced by the HPO genes when terms are given |
| QueryBuild.BuildQry | app.py:295-416 | the SV page query on P2_DB has the same clauses as P2Build without the gene clause, filtering pt_id unqualified |
| QueryBuild.CnvBuild | query/CNV_filters.py:371-541 | the CNV query is its join head, the site, level, type, length, flag, annotation, gene, family, patient and cluster clauses, one disruption group, one dosage group and the limit |
| QueryBuild.BuildQryCnv | app.py:741-869 | the CNV page query on CNV_hg19 bounds pos1 and pos2, ANDs each disruption box and the two Collins boxes separately, and has no gene clause |
| QueryBuild.CgrBare | query/CGR_filters.py:161-228 | with nothing selected the CGR query still keeps only candidate calls: head, candidate clause, limit |
| QueryBuild.CgrCandidateLast | query/CGR_filters.py:221 | the candidate clause is always present, last, and is the only fixed-text condition |
| QueryBuild.ChromClauses | query/CGR_filters.py:163-165 | a chosen chromosome c is the first condition: chr = "chrc" for CGR and CNV, chrom1 = "c" for SVs |
| QueryBuild.P2Bare | query/P2_filters.py:329-461 | with nothing selected the SV query is its head and the limit |
| QueryBuild.AppAgreesWithP2 | app.py:295-416 | without gene or patient selections the SV page builds the same conditions as P2_build |
| QueryBuild.CnvBare | query/CNV_filters.py:379-541 | with nothing selected the CNV query is its head and the limit |
| QueryBuild.CnvGroups | query/CNV_filters.py:495-533 | the CNV conditions end with the disruption group and then the dosage group, each present iff a box of it is ticked |

## Left out

- File, gzip, parquet and database I/O (`load_*`, `read_csv`, `to_sql`, the SQLite loaders, every `main`) are not modelled. A file's lines, or a missing/NaN path, are parameters.
- `CGR_cluster.query` and `add_proband_freq.main` fetch and update rows through SQL. Their input tables are parameters.
- The R segmenter (util/slmseg.py, rpy2/SLMSeg) is an oracle. `get_seg` takes the per-bin level sequence as input.
- Coverage median normalisation, `log2` and `prep_df` are floating-point work and are not modelled. Levels and log2 ratios are given values.
- `round(float(SVLEN))` is taken as integer parsing of the SVLEN text. Fractions are rationals (`real`), not floats. `str()` of a fraction is not modelled.
- The internals of sklearn DBSCAN are not modelled. Its labels come from the labeller parameter.
- The joblib `Parallel`/`tqdm` driver of helper/snf2_cluster.py `main` is not modelled. Parsing of one subject is Snf2Calls.ParseSingleVcf.
- Python `set` order (the HPO gene union and the distinct pt_id sets) is modelled as ascending order. The source leaves it unspecified.
- NaN group keys, which pandas `groupby` drops, are not modelled. Keys are strings, and an absent value is the empty string.
- pandas sort stability and the final `sort_values(by='chr')` of `process_cnv` (helper/CGR_cluster.py:83) are not modelled. Cgr.ProcessCnv returns rows in input order.
- Number formatting in SQL text is not modelled. Slider and input numbers are carried as the text the f-string prints, except the LIMIT count, which is printed in decimal.
- `pheno2gene` reads a file, so it is a function parameter.
- The Streamlit widgets and pages are not modelled: the `*_filters` widget functions, app.py's module-level widgets, Hello.py, pages/ and query/query.py. Filters are records.
- helper/variant_snapshot.py, util/decipher_scrape.py and util/hpo_translate.py are not part of this model. They are subprocess, network and file scripts.
- `annotate_IDR` (helper/CNV_annotate.py:182-190) has the same shape as Annotate.RepeatMask on one chromosome. `annotate` does not call it, so it has no separate member.
- Segments.GetSeg: a segmenter result with zero bins makes the source build columns of unequal length, which raises. The model returns an error there.
- A CNV on a chromosome with no candidate SV raises a `KeyError` in `process_cnv`. The model returns an error for it rather than skipping the call.
- `annotate_step2` unpacks `annotate_overlap`'s bare `[]` for a zero-length call, which fails. AnnotateCalls.Step2Row returns an error there.
- Text.ParseInt accepts only an optional sign and ASCII digits. Python's `int()` also accepts surrounding whitespace, `_` between digits and non-ASCII digits, so the model raises ValueError on such text where the source parses it.
- Text.Upper maps only the ASCII letters. Python's `str.upper()` applies full Unicode case mapping, for example `'ß'.upper() == 'SS'`.
- Freq.Ratio is None for a zero total. The source divides the column by that zero count, and pandas gives inf, or NaN for 0/0. The model has no such values, so Freq.RatioAtMostOne says nothing about that case.

## Findings

| source | as written | input that shows it | evidently intended | confidence | as-written member | corrected member |
|---|---|---|---|---|---|---|
| helper/P2_cluster.py:155-156 | after a type group whose DBSCAN labels are all noise, `cluster_counter = max(group['cluster'])` is -1, so the next group's ids restart at 0 (the same counter rule is at helper/snf2_cluster.py:124-127 and helper/CNV_cluster.py:204-205) | type groups DEL, DUP and INV with DBSCAN labels [0, 0], [-1] and [0, 0, 1, 1]: the DEL pair gets id 1, the DUP group sets the counter to -1, and the second INV cluster gets id 1 as well | the counter never goes down, so ids of different type groups never collide | not executed | Relabel.AllNoiseGroupCollision | Relabel.FixedCollisionApart |
| helper/CNV_cluster.py:231 | the skip test compares the left IDR key with '' twice, so only the left key decides the exemption (the same test is at helper/CNV_call.py:195 and helper/CNV_annotate.py:441) | two DEL calls with an empty left key, the same right key and cluster ids 3 and 7 stay apart | skip only groups without an IDR disruption on either side, so these two merge to 7 | not executed | Collapse.AsWrittenSkipsRightDisruption | Collapse.FixedMergesRightDisruption |
| helper/CGR_cluster.py:74 | right_dist is the distance from the CNV's start to the SV picked for its end | a gain on chr1 from 0 to 100000 whose only candidate SV is a DUP from 98000 to 100000 gets right_dist 98000 (and left_dist 98000, so the candidate clause drops it) | right_dist measured from the CNV's end, which is 0 here | not executed | Cgr.RightDistFromStartMisses | Cgr.MatchOfNearest |
