# MHC host–pathogen co-evolution simulator: a verified model of its core

The simulator evolves a population of hosts, each carrying two chromosomes
of MHC genes, against a population of pathogens divided into species, each
carrying one antigen. Genes and antigens are bit strings. A host gene
"presents" an antigen when enough of their bits agree, and presentation
protects the host from infection. Every effective mutation of a gene or an
antigen gives the variant a fresh tag from a global counter. It also records
the old tag and the old time of origin, so each variant carries its full
lineage. The simulator writes its populations as text files: a header line
per individual, then one line per gene. A set of Python post-processing
scripts reads those files back and computes statistics. Among them:

- the ancestry chains and the most recent common ancestor;
- the number of mutations per gene;
- similarity between bit strings;
- heterozygosity;
- gene content per chromosome;
- co-occurrence of genes and of presented species;
- per-gene infection statistics;
- the parameters of a run.

This project models, in Dafny:

- **The C++ simulator core.**
  - The tag counter (`Tagging`) and bit strings as `boost::dynamic_bitset` holds them (`Bits`).
  - Genes and antigens with their lineage bookkeeping (`Gene`, `Antigen`).
  - Hosts and pathogens, with their mutation, crossing-over and text output (`Host`, `Pathogen`).
  - Presentation and infection counting (`H2Pinteraction`).
  - The deterministic population bookkeeping of the environment (`Environment`).
  - The parameter validator, distinct-value count, header-once logic and host genome file text (`DataHandler`).
- **C++ objects that the source updates in place are Dafny classes.** They hold the same fields, and their methods carry `modifies` clauses. Since vectors in the source hold their objects by value, each class also has a value form (`State()`). Each method's `ensures` ties the new state to a pure transition of the old one, and lemmas state what those transitions keep.
- **Random draws are parameters.** The source draws them from a random number generator. The model takes each draw as an input, so every operation is deterministic and specified for every possible draw.
- **The Python scripts.** Each script, or each group of scripts that share code line for line, is one module.
  - A file is `Option<seq<string>>`: its lines, each keeping its newline, or `None` when it cannot be opened.
  - A Python exception is `PyResult.Raise`.
  - Loops over lines are methods proved against fold functions, and lemmas describe what the folds mean.
  - Several lemmas feed a file written by the simulator's own printing code into the script that reads it, and state what the script gets back. Examples are `HostFile.HostGenomesFileRead`, `EvolutionBigStats.HostFileLoads` and `EvolutionMutCount.HostFileCounts`.

## Model

| member | source | states |
|---|---|---|
| Tagging.TaggingSystem.GetTag | Tagging_system.cpp:74-77 | the counter goes up by one and the new value is returned |
| Tagging.TaggingSystem.SetValue | Tagging_system.cpp:65-67 | the counter becomes v |
| Tagging.TaggingHolder.constructor | Tagging_system.cpp:25 | there is no instance yet |
| Tagging.TaggingHolder.GetInstance | Tagging_system.cpp:43-48 | a new instance is built only when there is none; otherwise the existing one is returned; the holder keeps the returned one |
| Tagging.TaggingHolder.Release | Tagging_system.cpp:53-58 | after release there is no instance |
| Tagging.TagsIncreasing | Tagging_system.cpp:74-77 | n successive tags from counter c are c+1 … c+n, strictly increasing |
| Tagging.GetTagTwice | Tagging_system.cpp:74-77 | two successive calls return the next two tags, in increasing order |
| Tagging.ReleaseThenGet | Tagging_system.cpp:43-58 | after release, getInstance builds a fresh instance and keeps it |
| Tagging.SetThenGet | Tagging_system.cpp:65-77 | after setValue(v) the next tag is v + 1 |
| Bits.NatToBits | Gene.cpp:174 | a bitset of the given length whose bit k is bit k of the value |
| Bits.BitsToNat | Gene.cpp:180 | the value of a bitset is below 2 to the power of its length |
| Bits.ValueRoundTrip | Gene.cpp:174-180 | a value below 2^n read back from its bitset of length n is itself |
| Bits.BitsRoundTrip | Gene.cpp:174-180 | a bitset rebuilt from its own value is itself |
| Bits.BitsToNatInjective | Gene.cpp:180 | two bitsets of one length with the same value are equal |
| Bits.ToBinaryString | Host.cpp:479 | one '0' or '1' per bit, the highest index first |
| Bits.ToBinaryStringInjective | Host.cpp:479 | different bitsets of one length print differently |
| Bits.FlipWhere | Gene.cpp:205-212 | the same length; bit i flipped exactly when it is not protected and its draw is below the probability |
| Bits.FlipWhereKeepsProtected | Gene.cpp:207-210 | a protected bit is never flipped |
| Bits.FlipWhereChanged | Gene.cpp:205-212 | the result differs from the input exactly when some unprotected bit drew below the probability |
| Python.BitStringInt | PyScripts/evolution_big_stats.py:33 | a value exactly for a non-empty text of '0' and '1' digits, read in two's complement |
| Python.BitStringIntInjective | PyScripts/evolution_big_stats.py:33-35 | the key tells apart any two different binary texts of one length, so deduplicating on it is deduplicating on the bit string |
| Python.BinValueOfBits | Host.cpp:479 | a printed bitset read as an unsigned binary number is its value |
| Python.BitStringIntOfBits | PyScripts/MHC_segregation_sex_select.py:38-39 | the key of a printed bitset is its value with the highest bit as sign |
| Gene.ToInt | Gene.cpp:180 | the `(int)` cast of an unsigned value lies in the 32-bit range and is the identity below 2^31 |
| Gene.MaxValue | Gene.cpp:58 | `pow(2, length) - 1` is never negative |
| Gene.ClampUp | Gene.cpp:101-108 | the upper limit is at most both `up` and 2^length - 1, and is one of the two |
| Gene.BitGene | Gene.cpp:229-232 | the bitset has exactly the gene's length |
| Gene.RecordKeepsOrder | Gene.cpp:125-131 | recording a mutation with a fresh tag and a later time keeps the tag chain increasing, the time chain non-decreasing and the two histories of equal length |
| Gene.MutateWholeFires | Gene.cpp:122-133 | a mutation that fires appends the old tag and time to the history, makes the old value the parent, takes the next tag and the current time, stores the drawn value and keeps the length |
| Gene.MutateWholeNoFire | Gene.cpp:122-163 | a whole-gene mutation (plain or ranged) that does not fire changes nothing, not even the tag counter |
| Gene.MutateWholeRangedBounds | Gene.cpp:144-163 | a ranged mutation stores a value within [low, up] and within 2^length - 1, and records the parent |
| Gene.MutationsKeepLineage | Gene.cpp:122-221 | every kind of mutation keeps the two histories of equal length, the tag chain below the counter and increasing, and the time chain ordered |
| Gene.MutateBitsRecordsOnlyOnChange | Gene.cpp:172-221 | a bit-by-bit pass records history, takes a tag and renews the time exactly when the value changed, and never touches the parent value or the length |
| Gene.RestrictedKeepsProtected | Gene.cpp:201-221 | a restricted pass never changes a protected bit (for genes of at most 31 bits) |
| Gene.NewGeneProps | Gene.cpp:51-59 | a new gene has parent value -1, the current time, the next tag, the given length and a value below 2^length whose bitset reads back as the draw |
| Gene.NewGeneRangedBounds | Gene.cpp:95-114 | the ranged constructor's value lies within [low, up] and within 2^length - 1; the limit is clamped exactly when `up` exceeds it |
| Gene.NewFixedGeneProps | Gene.cpp:74-81 | `setNewFixedGene` stores exactly the given tag, value, length and time, with parent value -1, and keeps the histories |
| Gene.Gene.constructor | Gene.cpp:32-33 | a fresh gene has empty histories (both constructors; the copy keeps the whole state) |
| Gene.Gene.SetNewGene | Gene.cpp:51-59 | the new state is `NewGene` of the old one and the tag counter advances with it |
| Gene.Gene.SetNewFixedGene | Gene.cpp:74-81 | the new state is `NewFixedGene` of the old one |
| Gene.Gene.SetNewGeneRanged | Gene.cpp:95-114 | the new state is `NewGeneRanged` of the old one and the tag counter goes up by one |
| Gene.Gene.MutateGeneWhole | Gene.cpp:122-133 | the new state and counter are `MutateWhole` of the old ones |
| Gene.Gene.MutateGeneWholeRanged | Gene.cpp:144-163 | the new state and counter are `MutateWholeRanged` of the old ones |
| Gene.Gene.MutateBitByBitWithRestric | Gene.cpp:201-221 | the new state and counter are `MutateBitsRestricted` of the old ones (protected bits skipped) |
| Gene.Gene.MutateGeneBitByBit | Gene.cpp:172-189 | the new state and counter are `MutateBits` of the old ones |
| Gene.Gene.GetTheRealGene | Gene.cpp:240-242 | the stored value |
| Gene.Gene.GetBitGene | Gene.cpp:229-232 | a bitset of the gene's length that reads back as the value while the value fits |
| Antigen.Epitopes | Antigen.cpp:47-59 | one epitope per window start below size - mhcSize |
| Antigen.EpitopeAt | Antigen.cpp:47-59 | epitope i is the number read from the mhcSize bits starting at bit i |
| Antigen.EpitopeBits | Antigen.cpp:52-57 | bit k of epitope i is antigen bit i + k; the window starting at size - mhcSize is never produced |
| Antigen.EpitopesDetermineWindows | Antigen.cpp:47-59 | two antigens with the same epitope i have the same window at i |
| Antigen.NotReachedBetween | Antigen.cpp:102-104 | the Nth-swap loop visits no position strictly between two successive visited ones |
| Antigen.FlipEvery | Antigen.cpp:102-104 | flipping keeps the length |
| Antigen.FlipEveryProps | Antigen.cpp:98-110 | exactly the bits at multiples of Nth change; flipping twice restores the string; a non-empty string always changes |
| Antigen.NewAntigenProps | Antigen.cpp:72-85 | a new antigen has parent value -1, the next tag, the current time, bit i set exactly when its draw is below 0.5, epitopes that match its bits, and its history kept |
| Antigen.FlipedPositionsProps | Antigen.cpp:98-110 | the Nth-swap constructor stores the given string with exactly the multiples of Nth flipped, the given tag, parent -1 and matching epitopes |
| Antigen.MutateRecordsOnlyOnChange | Antigen.cpp:151-171 | a mutation pass flips the drawn unprotected bits; it records history, takes a tag and renews the time exactly when the string changed, and otherwise changes nothing |
| Antigen.RestrictedKeepsProtected | Antigen.cpp:151-171 | a restricted mutation never changes a bit listed in `noMutts` |
| Antigen.MutateKeepsInvariants | Antigen.cpp:120-171 | every mutation keeps the epitopes those of the bits, the two histories of equal length, the tags increasing and the times non-decreasing |
| Antigen.OneEpitopeOfConsistent | Antigen.cpp:189-195 | on an antigen with up-to-date epitopes, `getOneEpitope` gives the window value at idx, or 0 past the last window |
| Antigen.Antigen.constructor | Antigen.cpp:29 | a fresh antigen has empty bits, histories and epitopes |
| Antigen.Antigen.CalculateEpitopes | Antigen.cpp:47-59 | only the epitopes change, to `Epitopes` of the bit string |
| Antigen.Antigen.SetNewAntigen | Antigen.cpp:72-85 | the new state is `NewAntigen` of the old one and the tag counter goes up by one |
| Antigen.Antigen.SetAntigenFlipedPositions | Antigen.cpp:98-110 | the new state is `FlipedPositions` of the old one |
| Antigen.Antigen.MutateAntgBitByBitWithRes | Antigen.cpp:151-171 | the new state and counter are `MutateRestricted` of the old ones |
| Antigen.Antigen.MutateAntigenBitByBit | Antigen.cpp:120-138 | the new state and counter are `Mutate` of the old ones (no protected bits) |
| Antigen.Antigen.GetOneEpitope | Antigen.cpp:189-195 | the stored epitope at idx, or 0 when idx is out of range |
| Host.NewLoci | Host.cpp:59-66 | locus i of a chromosome holds the (2i + side)-th draw and the tag c + 2i + 1 + side, so the loop alternates between the chromosomes and hands out consecutive tags |
| Host.NewLocusGene | Host.cpp:60-65 | one pushed gene is the fresh locus gene with the next tag, and the counter goes up by one |
| Host.LocusGeneIsNewGene | Host.cpp:60-65 | the gene `setNewGene` leaves on a fresh `Gene` is the locus gene with tag c + 1 |
| Host.NewHostProps | Host.cpp:56-67 | `setNewHost` zeroes the counters and fitness, appends `num_of_loci` genes to each chromosome keeping the old ones, and the new genes have no parent, the given time, the drawn values and distinct consecutive tags |
| Host.MutateEach | Host.cpp:80-87 | mutating each gene of a chromosome keeps its length |
| Host.MutateEachStep | Host.cpp:81-86 | after gene i the processed prefix grows by gene i's mutated value and the rest is untouched |
| Host.MutateEachProps | Host.cpp:80-87 | at most one tag per gene is used; a gene whose draw is not below the probability is kept, and a mutated one takes the drawn value and records its old tag as a parent |
| Host.DelDuplStep | Host.cpp:107-129 | one step of the countdown at index k leaves the genes before k as they were |
| Host.DelDuplBounds | Host.cpp:104-131 | duplication happens only below `maxGene`, so a chromosome that starts within the limit ends within it and a longer one never grows; each step removes at most one gene and uses at most one tag |
| Host.StepBounds | Host.cpp:107-129 | one step changes the length by at most one, grows it only below the limit and uses at most one tag |
| Host.DelDuplKeepsLineage | Host.cpp:104-175 | the mutation, duplication and deletion pass keeps every gene's parent tags and mutation times parallel, older than the counter and not later than the current time |
| Host.StepKeepsLineage | Host.cpp:107-129 | one countdown step keeps every gene's lineage well formed |
| Host.MutatedKeepsLineage | Host.cpp:108-113 | mutating gene k keeps every gene's lineage well formed under the advanced counter |
| Host.DupDelKeepsLineage | Host.cpp:114-128 | appending a copy of gene k and erasing gene k only rearranges well-formed genes |
| Host.EmptyPassUntouched | Host.cpp:104-131 | an empty chromosome goes through the pass unchanged and uses no tag |
| Host.CrossedProps | Host.cpp:192-217 | with equal sizes each slot of the gamete holds the gene of one of the two chromosomes, and with the first draw at or above one half a slot whose draw is below the probability keeps chromosome one's gene; with unequal sizes one whole chromosome is returned |
| Host.SwappedProps | Host.cpp:382-390 | swapping either leaves the host as it was or exchanges the chromosomes, keeps the multiset of genes, and two swaps restore the host |
| Host.OneGeneProps | Host.cpp:226-265 | the fetched value is -1 exactly when the chromosome is empty, otherwise the value of one of its genes, and the gene at the index when the index is in range |
| Host.ClearedProps | Host.cpp:455-462 | `clearInfections` zeroes the three counters and the fitness and keeps the chromosomes |
| Host.HeaderReadBack | Host.cpp:473-475 | the header is one line whose words 3 and 7 read back as the infection and presentation counters |
| Host.ParentPairs | Host.cpp:484-487 | the parent part has two fields per parent |
| Host.ParentPairsRead | Host.cpp:484-487 | the parent fields are words that read back as each parent's mutation time and tag |
| Host.GeneLines | Host.cpp:478-507 | one line per gene of the chromosome, in order |
| Host.GeneFieldsAreWords | Host.cpp:479-491 | every field of a gene line after the bit string is a word, and so is the bit string of a non-empty gene |
| Host.GeneLineIsLine | Host.cpp:479-491 | a gene line is one line ending in a newline |
| Host.GeneLineReadBack | Host.cpp:479-491 | splitting a gene line gives back the bits, the chromosome name, the origin time, the tag, then a time and a tag per parent in order, or the single "-1" marker |
| Host.GeneMarkerRead | Host.cpp:489-491 | a gene without parents has five fields, the last "-1" |
| Host.GeneNamesRead | Host.cpp:479-480 | the first two fields are the gene's bits, highest bit first, and the chromosome name |
| Host.GeneHeadRead | Host.cpp:480-482 | fields 2 and 3 read back as the origin time and the tag |
| Host.GeneTailRead | Host.cpp:483-488 | a gene with k parents has 4 + 2k fields, field 4 + 2j the mutation time and field 5 + 2j the tag of parent j |
| Host.HostTextLines | Host.cpp:471-510 | the text is the header line followed by one line per gene, chromosome one's first |
| Host.StringGene | Host.cpp:479-491 | the text built for one gene is its line |
| Host.StringHead | Host.cpp:479-482 | the four leading fields, tab-separated |
| Host.StringParents | Host.cpp:484-487 | the loop appends a tab-separated time and tag for each parent after the leading fields |
| Host.StringGenes | Host.cpp:478-508 | the loop appends the line of every gene of one chromosome in order |
| Host.Host.constructor | Host.cpp:38-39 | a new host has two empty chromosomes |
| Host.Host.SetNewHost | Host.cpp:56-67 | the new state is `NewHost` of the old one and the counter goes up by two tags per locus |
| Host.Host.ChromoMutProcess | Host.cpp:80-87 | each chromosome becomes `MutateEach` of itself, chromosome one first, the counter threaded through, nothing else changes |
| Host.Host.ChromoMutProcessWithDelDupl | Host.cpp:104-131 | the new state and counter are the whole-gene `HostPass` of the old ones |
| Host.Host.ChromoMutProcessWithDelDuplPointMuts | Host.cpp:148-175 | the new state and counter are the point-mutation `HostPass` of the old ones |
| Host.Host.DoCrossAndMeiosis | Host.cpp:192-217 | the gamete is `Crossed` of the two chromosomes and the draws |
| Host.Host.GetOneGeneFromOne | Host.cpp:226-241 | the value of gene `indx` of chromosome one (`OneGene`) |
| Host.Host.GetOneGeneFromTwo | Host.cpp:250-265 | the value of gene `indx` of chromosome two (`OneGene`) |
| Host.Host.GetSingleGeneFromOne | Host.cpp:301-309 | the bit string of gene `indx` of chromosome one, or of its last gene past the end |
| Host.Host.GetSingleGeneFromTwo | Host.cpp:318-326 | the bit string of gene `indx` of chromosome two, or of its last gene past the end |
| Host.Host.GetGenomeSize | Host.cpp:272-274 | the number of genes of both chromosomes |
| Host.Host.MergeChromosomes | Host.cpp:352-358 | chromosome one followed by chromosome two |
| Host.Host.AssignChromOne | Host.cpp:365-367 | only chromosome one changes, to the given one |
| Host.Host.AssignChromTwo | Host.cpp:374-376 | only chromosome two changes, to the given one |
| Host.Host.SwapChromosomes | Host.cpp:382-390 | the new state is `Swapped` of the old one |
| Host.Host.ClearInfections | Host.cpp:455-462 | the new state is `Cleared` of the old one |
| Host.Host.StringChromosomes | Host.cpp:471-510 | the text is `HostText` of the host |
| Pathogen.NewPathogenZeroesCounters | Pathogen.cpp:54-82 | both constructors set the species, zero the infection and reproduction counters and leave an antigen whose epitopes match its bits; the random one takes the next tag |
| Pathogen.SettersChangeOnlyTheirFields | Pathogen.cpp:122-151 | `clearInfections` zeroes the two counters and nothing else and is idempotent; `setNewSpeciesNumber` changes only the species |
| Pathogen.MutateKeepsPathogenFields | Pathogen.cpp:95-113 | mutation changes only the antigen (its bits become the flipped ones), never the species or the counters |
| Pathogen.HeaderReadBack | Pathogen.cpp:160-163 | the header is one line whose whitespace-separated words give back the species and the infection count |
| Pathogen.AntigenFieldsAreWords | Pathogen.cpp:165-172 | the antigen line has 4 + (number of parents) fields: the bits, "ch_pat", then numbers, each a non-empty word |
| Pathogen.AntigenLineIsLine | Pathogen.cpp:165-173 | the antigen line is one line ending in a newline |
| Pathogen.AntigenLineReadBack | Pathogen.cpp:165-173 | splitting the antigen line gives the bits, "ch_pat", the origin time, the own tag and every parent tag in order, each parsing back to the stored value; the mutation times are not written |
| Pathogen.GenomeTextLines | Pathogen.cpp:159-176 | the genome text is exactly two lines, the header and the antigen line |
| Pathogen.StringAntigen | Pathogen.cpp:164-173 | the text built is the antigen line |
| Pathogen.StringParentTags | Pathogen.cpp:169-172 | the loop appends every parent tag, tab-separated, after the leading fields |
| Pathogen.Pathogen.constructor | Pathogen.cpp:32-33 | a fresh pathogen owns a fresh, empty antigen |
| Pathogen.Pathogen.SetNewPathogen | Pathogen.cpp:54-60 | the new state is `NewPathogen` of the old one and the tag counter goes up by one |
| Pathogen.Pathogen.SetNewPathogenNthSwap | Pathogen.cpp:76-82 | the new state is `NewPathogenNthSwap` of the old one |
| Pathogen.Pathogen.ChromoMutProcess | Pathogen.cpp:95-98 | the new state and counter are `Mutate` of the old ones |
| Pathogen.Pathogen.ChromoMutProcessWithRestric | Pathogen.cpp:110-113 | the new state and counter are `MutateRestricted` of the old ones |
| Pathogen.Pathogen.SetNewSpeciesNumber | Pathogen.cpp:122-124 | only the species changes, to n |
| Pathogen.Pathogen.GetSpeciesTag | Pathogen.cpp:140-142 | the stored species |
| Pathogen.Pathogen.ClearInfections | Pathogen.cpp:147-151 | the new state is the old one with both counters zero |
| Pathogen.Pathogen.StringGenesFromGenome | Pathogen.cpp:159-176 | the text is the header followed by the antigen line |
| H2Pinteraction.MatchCount | H2Pinteraction.cpp:56-59 | the count of equal positions is at most the gene length |
| H2Pinteraction.Run | H2Pinteraction.cpp:86-91 | the running counter before index i is at most i |
| H2Pinteraction.RunWindow | H2Pinteraction.cpp:86-92 | the counter reaches n at i exactly when the n positions before i all hold equal bits |
| H2Pinteraction.InRowIffWindow | H2Pinteraction.cpp:82-105 | the counter-based test is equivalent to the reference reading "some window of `simil_mesure` consecutive positions matches", both directions |
| H2Pinteraction.RunBelowMatches | H2Pinteraction.cpp:86-91 | a run never exceeds the number of equal positions in the prefix it ends |
| H2Pinteraction.MatchCountPrefix | H2Pinteraction.cpp:56-59 | equal positions of a prefix are equal positions of the whole gene |
| H2Pinteraction.RowImpliesAny | H2Pinteraction.cpp:53-105 | a gene presented by the in-a-row rule is presented by the any-positions rule |
| H2Pinteraction.PresentGeneAny | H2Pinteraction.cpp:53-70 | true exactly when the genes have equal length and at least `simil_mesure` equal positions; false for unequal lengths |
| H2Pinteraction.PresentGeneRow | H2Pinteraction.cpp:82-105 | true exactly when the genes have equal length and a run of at least `simil_mesure` equal positions, the early return included; false for unequal lengths |
| H2Pinteraction.GeneHits | H2Pinteraction.cpp:220-228 | one host gene presents at most every pathogen gene |
| H2Pinteraction.PairCount | H2Pinteraction.cpp:219-229 | the presenting pairs of a chromosome are at most its genes times the pathogen's genes |
| H2Pinteraction.GeneHitsPositive | H2Pinteraction.cpp:220-228 | a host gene counts a presentation exactly when it presents some pathogen gene |
| H2Pinteraction.PairCountPositive | H2Pinteraction.cpp:219-242 | the count of presenting pairs is positive exactly when some host gene presents some pathogen gene |
| H2Pinteraction.HeteroBetterOneEffect | H2Pinteraction.cpp:121-155 | an encounter adds either one presentation or one infection on both host and pathogen, never both, and changes nothing else |
| H2Pinteraction.HomoBetterProps | H2Pinteraction.cpp:171-211 | presentations rise by 0, 1 or 2, by 2 exactly when both chromosomes present; an infection is counted exactly when nothing was presented, equally on host and pathogen; genes are untouched |
| H2Pinteraction.AllToAllProps | H2Pinteraction.cpp:213-250 | presentations rise by the number of presenting pairs; the host is infected, and the pathogen counts it, exactly when no chromosome presents |
| H2Pinteraction.AllToAllInfectsLikeHetero | H2Pinteraction.cpp:121-250 | the all-to-all rule leaves the pathogen as the heterozygote rule does, so it infects exactly when that rule does |
| H2Pinteraction.SearchChromosome | H2Pinteraction.cpp:126-136 | the nested search stops with true exactly when some pair of one chromosome presents |
| H2Pinteraction.CountPairs | H2Pinteraction.cpp:219-229 | the nested loops count every presenting pair of one chromosome |
| H2Pinteraction.DoesInfectedHeteroBetter | H2Pinteraction.cpp:121-155 | host and pathogen end in `HeteroBetter` of their old states |
| H2Pinteraction.DoesInfectedHomoBetter | H2Pinteraction.cpp:171-211 | host and pathogen end in `HomoBetter` of their old states |
| H2Pinteraction.DoesInfectedAllToAll | H2Pinteraction.cpp:213-250 | host and pathogen end in `AllToAll` of their old states |
| Environment.FixedSites | Environment.cpp:66-70 | every fixed site of a species lies inside the antigen |
| Environment.FixedSets | Environment.cpp:60-73 | one set per species, set i drawn from species i's draws |
| Environment.FixedSitesExactly | Environment.cpp:66-70 | a site is fixed exactly when it is inside the antigen and its draw is at most the fraction |
| Environment.FourSites | Environment.cpp:98-108 | every site fixed from site c on lies between c and three past the antigen's end |
| Environment.FourSitesInBlocks | Environment.cpp:98-108 | every fixed site lies in a block of four, all fixed, that starts at a visited site whose draw was at most the quarter fraction |
| Environment.FourSitesPassTheEnd | Environment.cpp:98-108 | a block started at the last site fixes sites past the antigen's end (site 3 of a one-site antigen) |
| Environment.FourSets | Environment.cpp:89-110 | one set per species, each built by the blocks-of-four walk |
| Environment.CladSets | Environment.cpp:143-147 | one set per species |
| Environment.CladSetsPeriodic | Environment.cpp:129-148 | every species' set is one of the four drawn sets, and species four apart share their set |
| Environment.Allocation | Environment.cpp:353-373 | one size per species after clamping the species count to the population size |
| Environment.AllocationProps | Environment.cpp:353-373 | the clamped species count is at most the population; the sizes add up to the population, each is between pop / count and twice that, and earlier species never hold fewer |
| Environment.RemainderFits | Environment.cpp:355-372 | with 0 < count <= pop the whole remainder is handed out inside the loops |
| Environment.SpeciesSizeNonIncreasing | Environment.cpp:362-372 | an earlier species never gets fewer individuals than a later one |
| Environment.Copies | Environment.cpp:364-368 | k copies of the template |
| Environment.Ascending | Environment.cpp:1302-1304 | a `std::set` is visited in ascending order, one element each |
| Environment.AscendingSorted | Environment.cpp:1302-1304 | the visit lists exactly the set's elements, each smaller than the next |
| Environment.FixedLines | Environment.cpp:1301-1306 | one line per species, its sites followed by a newline |
| Environment.SpacedTextWords | Environment.cpp:1302-1304 | reading a species' line word by word gives its sites in ascending order |
| Environment.FixedTextReadBack | Environment.cpp:1299-1308 | the text has one line per species and each line's words parse back to exactly that species' sites, ascending |
| Environment.FreshHost | Environment.cpp:165-168 | `setNewHost` on a freshly pushed `Host()` does not depend on its unset counters |
| Environment.NewHosts | Environment.cpp:165-168 | one new host per loop turn, host i set up with its loci count and the tags after those of the hosts before it |
| Environment.NewHostsLast | Environment.cpp:165-168 | one more turn appends one host and advances the counter by two tags per locus |
| Environment.NewHostsProps | Environment.cpp:163-169 | every new host has zeroed counters and its loci count of fresh genes, with no parent and born now, on each chromosome; its tags lie after those of earlier hosts and within the counter after it |
| Environment.NewHostFresh | Environment.cpp:165-168 | one new host's genes are fresh and tagged within its own range |
| Environment.NewHostsTagsSeparate | Environment.cpp:163-169 | genes of different new hosts never share a tag: the earlier host's are smaller |
| Environment.FreshGeneTag | Environment.cpp:165-168 | a fresh host's gene tags lie in its range |
| Environment.FreshPathogen | Environment.cpp:251-265 | `setNewPathogen` on a freshly pushed `Pathogen()` does not depend on its unset fields |
| Environment.FreshPathogenNthSwap | Environment.cpp:408-419 | `setNewPathogenNthSwap` on a freshly pushed `Pathogen()` does not depend on its unset fields |
| Environment.RandomPathogens | Environment.cpp:250-264 | one new pathogen per draw |
| Environment.RandomPathogensProps | Environment.cpp:250-264 | the k-th new pathogen of a run starting at counter c is fresh, of the given species, with tag c + k + 1 |
| Environment.DivTemplates | Environment.cpp:358-362 | one template per species |
| Environment.DivSpecies | Environment.cpp:349-374 | one species per template |
| Environment.DivSpeciesProps | Environment.cpp:349-374 | species i holds its allocated number of identical pathogens, each a fresh pathogen of species i with tag c + i + 1 |
| Environment.UniformSpecies | Environment.cpp:246-274 | one species per entry of the draws |
| Environment.UniformSpeciesProps | Environment.cpp:246-274 | species i holds its allocated number of fresh pathogens of species i, and no two individuals of the population share an antigen tag |
| Environment.UniformSpeciesAt | Environment.cpp:248-272 | the k-th pathogen of species i carries the tag just after the pathogens before it |
| Environment.CladeTemplate | Environment.cpp:398-419 | template k has the antigen's length, species k, zero counters and tag c + k + 1, a tag the source's call does not pass (see Left out) |
| Environment.CladeTemplateNext | Environment.cpp:403-419 | template k copies template k - 1's antigen with every second bit (odd k) or every bit (even k) flipped |
| Environment.FourClades | Environment.cpp:394-435 | one species per clamped species count |
| Environment.FourCladesOfTemplates | Environment.cpp:421-433 | the species loop over the four templates builds `FourClades` |
| Environment.FourCladesProps | Environment.cpp:421-433 | every individual of species i is template i mod 4 with its species number set to i: same antigen and tag, zero counters |
| Environment.FixedLoci | Environment.cpp:163-169 | every one of `pop_size` hosts gets `chrom_size` loci |
| Environment.CastLoci | Environment.cpp:196-199 | one loci count per host |
| Environment.RandomHostPopulation | Environment.cpp:163-201 | the setters append one host per loci count |
| Environment.RandomHostPopulationProps | Environment.cpp:163-201 | the setters keep every old host and append fresh hosts with their own tags |
| Environment.NewHostsLoop | Environment.cpp:165-168 | the loop builds exactly `NewHosts` and advances the counter by two tags per locus of all new hosts |
| Environment.SpeciesMutation | Environment.cpp:960-964 | a species keeps its size through a mutation round and the counter never goes down |
| Environment.SpeciesMutationStep | Environment.cpp:961-964 | mutating pathogen j in place extends the mutated prefix by one |
| Environment.PopulationMutation | Environment.cpp:958-965 | the mutated population has one entry per species and the counter never goes down |
| Environment.SpeciesMutationProps | Environment.cpp:955-971 | after the round every pathogen keeps its species and counters; its antigen is the restricted flip of the old one, a fixed site keeps its bit, and an unchanged antigen means an unchanged pathogen |
| Environment.TagsOf | Environment.cpp:1345-1351 | the tags of the genes, in order |
| Environment.ValuesOf | Environment.cpp:1358-1365 | the values of the genes, in order |
| Environment.HostsBearing | Environment.cpp:1366-1389 | at most every host bears a tag |
| Environment.FirstByTagTags | Environment.cpp:1342-1352 | the kept genes' tags are the distinct tags of the gene list in first-appearance order, and every kept gene is from the list |
| Environment.AllGenesHas | Environment.cpp:1334-1341 | every gene of every host is in the gathered list |
| Environment.AllGenesBorne | Environment.cpp:1334-1341 | every gathered gene belongs to a host, which therefore bears its tag |
| Environment.UniqueGeneTableProps | Environment.cpp:1329-1391 | the table lists every tag once in first-appearance order; each entry is a gene of the population whose value occurs between once and once per gene, borne by between one and every host |
| Environment.UniqueGeneTableTags | Environment.cpp:1329-1391 | every tag of the population appears in the table and no two entries share one |
| Environment.GatherGenes | Environment.cpp:1334-1341 | the loops gather every host's chromosome one and then chromosome two, host by host |
| Environment.KeepFirstByTag | Environment.cpp:1342-1352 | the marking pass keeps exactly the first gene of each tag |
| Environment.MarkSameTag | Environment.cpp:1345-1350 | the inner loop marks every later gene with gene i's tag and changes no other mark |
| Environment.FirstByTagStep | Environment.cpp:1343-1351 | one more gene is kept exactly when its tag is new |
| Environment.CountValue | Environment.cpp:1358-1365 | the number of gathered genes carrying the value |
| Environment.Bears | Environment.cpp:1369-1380 | the search of one chromosome hits exactly when the tag is on it |
| Environment.CountBearing | Environment.cpp:1366-1389 | the number of hosts carrying the tag on either chromosome, each host counted once |
| Environment.DrawFixedSites | Environment.cpp:66-70 | the site loop builds `FixedSites` of the draws |
| Environment.DrawFourSites | Environment.cpp:97-108 | the blocks-of-four walk builds `FourSites` of the draws |
| Environment.NewRandomPathogen | Environment.cpp:251-253 | a pushed `Pathogen()` set by `setNewPathogen` takes the next tag |
| Environment.NewSwappedPathogen | Environment.cpp:408-418 | a pushed `Pathogen()` set by `setNewPathogenNthSwap` under the next tag, which the model supplies because the source's call passes none (see Left out) |
| Environment.FillRandomSpecies | Environment.cpp:250-265 | one species' rounds draw `RandomPathogens` and use up its share of the remainder |
| Environment.FillSpecies | Environment.cpp:364-370 | one species' rounds push per + min(per, left) copies of the template and use up that share of the remainder |
| Environment.LeftStep | Environment.cpp:364-370 | what remains of the remainder after species i took its share |
| Environment.Environment.constructor | Environment.cpp:37-38 | a new environment holds no hosts, pathogens, fixed sites or unique genes |
| Environment.Environment.SetNoMutsVector | Environment.cpp:60-73 | the sets appended are `FixedSets` of the draws |
| Environment.Environment.SetNoMutsVecInFours | Environment.cpp:89-110 | the sets appended are `FourSets` of the draws with a quarter of the fraction |
| Environment.Environment.SetNoMutsVecFourClads | Environment.cpp:129-148 | the sets appended are four drawn sets, species i taking set i mod 4 |
| Environment.Environment.SetUpHosts | Environment.cpp:165-168 | the population becomes `RandomHostPopulation` of the old one and the counter advances by two tags per locus |
| Environment.Environment.SetHostRandomPopulation | Environment.cpp:163-169 | the same with `chrom_size` loci on every host |
| Environment.Environment.SetHostRandomPopulationInRange | Environment.cpp:187-201 | the same with each host's loci count drawn between the two bounds, taken in either order |
| Environment.Environment.SetHostClonalPopulation | Environment.cpp:218-227 | `pop_size` copies of the one clone are appended |
| Environment.Environment.AppendSpecies | Environment.cpp:363-373 | species i appended holds its allocation of copies of template i |
| Environment.Environment.SetPathoPopulatioDivSpecies | Environment.cpp:349-374 | the fixed sites are `FixedSets` of their draws and the species appended are `DivSpecies` |
| Environment.Environment.SetPathoPopulatioUniformGenome | Environment.cpp:246-274 | the fixed sites are `FixedSets` of their draws, the species appended are `UniformSpecies`, and the counter advances by the population size |
| Environment.Environment.AppendRandomSpecies | Environment.cpp:248-273 | species i appended holds its share of fresh pathogens, tagged after the species before it |
| Environment.Environment.CladeTemplates | Environment.cpp:398-419 | the four templates are `CladeTemplate` 0 to 3, taking four tags from the counter (the model's reading of the call, see Left out) |
| Environment.Environment.SetPathoPopulationFourClades | Environment.cpp:394-435 | the fixed sites are the four-clade sets, the species appended are `FourClades`, and four tags are taken from the counter (the model's reading of the call, see Left out) |
| Environment.Environment.MutateSpecies | Environment.cpp:960-964 | species i becomes its `SpeciesMutation` and nothing else changes |
| Environment.Environment.MutatePathogensWithRestric | Environment.cpp:955-971 | with one fixed-site set per species every pathogen mutates under its species' set (`PopulationMutation`); otherwise nothing changes |
| Environment.Environment.GetFixedBitsInAntigens | Environment.cpp:1299-1308 | the text is one line per species listing its sites in ascending order, each followed by a space |
| Environment.Environment.SetUniqueGenes | Environment.cpp:1329-1391 | the unique genes become `UniqueGeneTable` of the hosts |
| DataHandler.MarkLaterCopies | DataHandler.cpp:71-77 | after the inner loop at i, a later value is marked exactly when it occurs among the first i + 1 values; earlier marks are kept |
| DataHandler.GetShannonIndx | DataHandler.cpp:55-87 | the number of types is the number of distinct values (0 for no values, between 1 and the count otherwise) and the total is the number of values |
| DataHandler.GeneValues | DataHandler.cpp:456-459 | the values of a chromosome's genes in order |
| DataHandler.GeneNumbers | DataHandler.cpp:449-465 | per host, the number of genes on chromosome one and the number of distinct values among them |
| DataHandler.SizesNeverChecked | DataHandler.cpp:141-208 | the population sizes, species count, pathogen genes and generation counts never make a run wrong |
| DataHandler.AcceptedParams | DataHandler.cpp:141-208 | accepted parameters have a non-negative seed, genes of at most 31 bits that fit in an antigen, probabilities in [0, 1], mode 10 or 11, and a gene limit of at least one and at least the initial gene count |
| DataHandler.HeterozygoteFlag | DataHandler.cpp:264-270 | YES exactly for mode 10, NO exactly for 11, ERROR exactly for anything else |
| DataHandler.FlagErrorIsWrong | DataHandler.cpp:185-190 | the parameter file says ERROR only for a mode the validator rejects, and an accepted run says YES or NO |
| DataHandler.ZeroDivisorAccepted | DataHandler.cpp:141-208 | an accepted run stays accepted with a species count of 0 (which also passes main's `% 4` test) or a pathogen population of 0, and either gives a clamped species count of 0, the divisor of the species split |
| DataHandler.AcceptedSizesSplit | DataHandler.cpp:141-208 | the validator extended with "at least one pathogen and one species" accepts only runs the original accepts, and those have a positive clamped species count whose species sizes add up to the pathogen population |
| DataHandler.HeaderOnce | DataHandler.cpp:291-308 | after `setAllFilesAsFirtsTimers` a run of calls leaves the header once followed by one line per call, whatever the file held; without the flag calls only append |
| DataHandler.NumbersLineReadBack | DataHandler.cpp:301-306 | the numbers line splits back into the time stamp and the numbers in order |
| DataHandler.StringNumbers | DataHandler.cpp:301-306 | the loop appends " " and each number after the time stamp |
| DataHandler.HostsTextIsLines | DataHandler.cpp:347-349 | the text of all hosts is their lines one after the other, each a single line |
| DataHandler.HostFileHeadIsLines | DataHandler.cpp:343-346 | the two comment lines of the host genome file are lines holding '#' |
| DataHandler.HostGenomesTextLines | DataHandler.cpp:339-351 | the host genome file reads back line by line as the two comments and then each host's block |
| DataHandler.ChromosomeValues | DataHandler.cpp:456-459 | the value of each gene of the chromosome, in order |
| DataHandler.ChromOneSizes | DataHandler.cpp:449-465 | per host, the size of chromosome one |
| DataHandler.ChromOneTypes | DataHandler.cpp:449-465 | per host, the number of distinct values on chromosome one |
| DataHandler.SpeciesSizes | DataHandler.cpp:302-304 | per species, its population size |
| DataHandler.DataHandler.constructor | DataHandler.cpp:37-38 | no file text is written yet |
| DataHandler.DataHandler.SetAllFilesAsFirtsTimers | DataHandler.cpp:91-98 | every header flag is set and no file text changes |
| DataHandler.DataHandler.CheckParamsIfWrong | DataHandler.cpp:141-208 | the error flag is set exactly when some check fails (`ParamsWrong`) |
| DataHandler.DataHandler.SaveNumOfPathoSpeciesToFile | DataHandler.cpp:291-308 | the file gets the header if its flag was set, then the time stamp and every species' size; the flag is cleared |
| DataHandler.DataHandler.SaveHostGeneticDivers | DataHandler.cpp:365-412 | the file gets the header if its flag was set, then the given line |
| DataHandler.DataHandler.SaveHostGeneNumbers | DataHandler.cpp:426-480 | each of the two files gets its header if its own flag was set, then the per-host sizes or distinct counts of chromosome one |
| DataHandler.DataHandler.SavePathoNoMuttList | DataHandler.cpp:488-502 | the file gets the header if its flag was set, then the fixed-sites text |
| HostFile.DataLines | PyScripts/evolution_big_stats.py:26-31 | the lines kept are never more than the lines read, and none of them holds '#' or "===" |
| HostFile.FieldsOf | PyScripts/evolution_big_stats.py:32 | one field list per line, each the whitespace split of its line |
| HostFile.GeneFieldsAvoid | Host.cpp:479-491 | every tab-separated field of a gene line (bits, chromosome name, decimal times and tags, or -1) avoids any character that is not a digit or '-' and is absent from the chromosome name |
| HostFile.GeneLineRead | Host.cpp:478-492 | a gene line contains neither '#' nor "===", so the gene-level scripts never skip it |
| HostFile.HeaderMarked | Host.cpp:473-475 | a host's header line contains "===" and no '#', so the scripts take it for a header |
| HostFile.GeneLinesRead | Host.cpp:478-508 | skipping '#' and "===" lines keeps every gene line of a chromosome, in order |
| HostFile.HostLinesRead | Host.cpp:471-510 | within one host's block the scripts keep exactly the gene lines of both chromosomes and drop the header |
| HostFile.PopulationLinesRead | DataHandler.cpp:347-349 | over all hosts written one after another, the lines kept are the hosts' gene lines in population order |
| HostFile.HostGenomesFileRead | DataHandler.cpp:339-351 | reading back a whole host genome file (two '#' lines, then every host's block) and skipping '#' and "===" lines leaves exactly the hosts' gene lines, in the order written |
| HeaderBlocks.LoadFile | PyScripts/MHC_similiraty.py:116-140 | the loop over the lines, with the list of closed individuals, the open one and the flag, returns what the fold over the lines describes, `None` when the file does not open |
| HeaderBlocks.ScanLinesRaise | PyScripts/MHC_similiraty.py:125-134 | an exception raised on some line ends the loader with that exception, whatever follows |
| HeaderBlocks.ScanStepDescribes | PyScripts/MHC_similiraty.py:126-134 | one pass of the loop body raises exactly when a data line cannot be read, with that line's exception, and otherwise keeps the state equal to its description by items, closing headers and flag |
| HeaderBlocks.ScanLinesDescribed | PyScripts/MHC_similiraty.py:125-134 | after any number of lines the loop's state is the description of those lines, and it fails exactly when reading some data line fails |
| HeaderBlocks.BlocksFlatten | PyScripts/MHC_similiraty.py:125-135 | nothing is lost or reordered: the individuals concatenate to the items of the data lines in file order; an exception is the first data line's that fails |
| HeaderBlocks.BlocksCount | PyScripts/MHC_similiraty.py:128-135 | one individual per header that closes one, plus the one appended at end of file |
| HeaderBlocks.ClosersUnarmed | PyScripts/MHC_similiraty.py:128-133 | before the flag is set no header closes an individual |
| HeaderBlocks.ClosersArmed | PyScripts/MHC_similiraty.py:128-133 | once the flag is set it stays set, and every later header closes exactly one individual |
| HeaderBlocks.ArmedOnHeader | PyScripts/detailed_MHC_gene_stats.py:33-38 | when the flag is set on headers, it is set exactly when a header has been read |
| HeaderBlocks.ClosersOnHeader | PyScripts/detailed_MHC_gene_stats.py:33-38 | when the flag is set on headers, every header except the first closes an individual |
| HeaderBlocks.OnHeaderCount | PyScripts/detailed_MHC_gene_stats.py:30-46 | when the flag is set on headers, the loader returns one individual per header, or one individual when there is no header |
| HeaderBlocks.FirstField | PyScripts/MHC_similiraty.py:134 | IndexError exactly on a line with no field; otherwise the first whitespace-separated field |
| HeaderBlocks.TagField | PyScripts/host_heterozygoty_check.py:30-31 | IndexError exactly below four fields, ValueError exactly when the fourth field is not an integer, otherwise that integer |
| HostLoader.LoadHostPopulation | PyScripts/MHC_similiraty.py:116-140 | the loop's result is the host bit strings the fold over the file describes, `None` when the file does not open; PyScripts/infection_vs_MHC_stats.py:22-46 and its notebook copy hold the same loader line for line |
| HostLoader.MissingFileGivesNone | PyScripts/MHC_similiraty.py:138-140 | a file that does not open gives `None` and no exception |
| HostLoader.HostsHoldFirstFields | PyScripts/MHC_similiraty.py:125-135 | the loader raises exactly when some data line is blank, then with IndexError; otherwise the hosts concatenate to the first fields of all data lines in file order |
| HostLoader.FirstFieldRaises | PyScripts/MHC_similiraty.py:134 | reading first fields can only fail with IndexError |
| HostLoader.HostsCount | PyScripts/MHC_similiraty.py:128-135 | headers before the first data line close nothing, every header after it closes one host, and the host open at end of file is always appended |
| EvolutionBigStats.LoadHostPopulation | PyScripts/evolution_big_stats.py:16-48 | the loop's result is the pair of chain lists the fold over the file describes, `None` when the file does not open |
| EvolutionBigStats.LoadLinesRaise | PyScripts/evolution_big_stats.py:26-44 | an exception raised on some line ends the loader with that exception, whatever follows |
| EvolutionBigStats.LoadLinesData | PyScripts/evolution_big_stats.py:27-30 | lines holding '#' or "===" change nothing: loading a file is loading its gene lines |
| EvolutionBigStats.Keys | PyScripts/evolution_big_stats.py:33 | one dedup key per line, the integer of its bit string |
| EvolutionBigStats.LoadLinesFirst | PyScripts/evolution_big_stats.py:32-44 | after a successful load every gene line has a key, the kept keys are the distinct keys in first-appearance order, and the k-th tag and time chains come from the first gene line carrying the k-th key |
| EvolutionBigStats.FirstKeptStep | PyScripts/evolution_big_stats.py:32-44 | one more gene line keeps that description: a known bit string changes nothing and a new one appends its two chains |
| EvolutionBigStats.LoadLinesOk | PyScripts/evolution_big_stats.py:32-44 | the loader raises nothing on lines whose gene lines all have a binary first field and at least four fields |
| EvolutionBigStats.ChainLengths | PyScripts/evolution_big_stats.py:39-44 | the tag chain has one item per field pair after the fourth field plus the own tag; the time chain is one longer exactly when the number of fields is odd |
| EvolutionBigStats.GeneLineReadable | Host.cpp:478-492 | a gene line the simulator writes for a gene of non-zero length splits back into its fields and its key is the integer of the gene's bits |
| EvolutionBigStats.GeneLineChains | Host.cpp:484-487 | a line written with k >= 1 parent pairs gives two chains of length k + 1: the parents' tags then the own tag, and the parents' mutation times then the own origin time, each reading back as the stored number |
| EvolutionBigStats.FieldChains | PyScripts/evolution_big_stats.py:39-44 | the chains of any field list laid out as a gene line with parents hold the parents' tags and times, then the own tag and origin time |
| EvolutionBigStats.EvenChains | PyScripts/evolution_big_stats.py:39-44 | with 4 + 2k fields, item j of the chains is field pair j and the last items are fields 3 and 2 |
| EvolutionBigStats.GeneLineMarkerChains | Host.cpp:489-490 | for a gene written with the -1 marker the tag chain is the own tag alone and the time chain is "-1" then the origin time |
| EvolutionBigStats.MarkerFields | Host.cpp:478-490 | the fields of a gene without parents are its bits, the chromosome name, origin time, tag and "-1" |
| EvolutionBigStats.HostFileLoads | PyScripts/evolution_big_stats.py:16-48 | the round trip with the writer (`saveHostPopulToFile`, DataHandler.cpp:339-351): loading a host genome file the simulator wrote succeeds, skips the comment and header lines, and keeps the chains of the first gene line of each distinct bit string, in the order the hosts were written |
| EvolutionBigStats.ColumnItems | PyScripts/evolution_big_stats.py:77-84 | the column at depth jj holds exactly the items at jj of the chains longer than jj |
| EvolutionBigStats.FindTheOnesAtBeginning | PyScripts/evolution_big_stats.py:74-85 | the loop returns the distinct items of the column at depth jj, skipping chains too short for it |
| EvolutionBigStats.OnesAtDepth | PyScripts/evolution_big_stats.py:74-85 | the items at depth jj, each once, in the order in which they first appear going down the chain list |
| EvolutionBigStats.NumberOfMutList | PyScripts/evolution_big_stats.py:88-93 | one entry per chain, its length |
| EvolutionBigStats.MaxLen | PyScripts/evolution_big_stats.py:104 | the largest chain length: no chain is longer and some chain has it |
| EvolutionBigStats.WalkEnd | PyScripts/evolution_big_stats.py:107-112 | the walk from depth x ends at a depth between x and the bound |
| EvolutionBigStats.MRCADepth | PyScripts/evolution_big_stats.py:105-112 | the depth the walk ends on lies within the longest chain and holds exactly one distinct item |
| EvolutionBigStats.FindMRCA | PyScripts/evolution_big_stats.py:96-113 | AttributeError (from `np.mnan`) unless depth 0 holds exactly one distinct tag; otherwise the tag, time and depth the walk ends on, or IndexError or ValueError where the first gene's chains are too short or its time is not an integer |
| EvolutionBigStats.RootChainExists | PyScripts/evolution_big_stats.py:99-105 | a single root tag means there is a chain and the longest one is non-empty |
| EvolutionBigStats.MaxOf | PyScripts/evolution_big_stats.py:104 | the largest entry of a non-empty array |
| EvolutionBigStats.MaxOfLengths | PyScripts/evolution_big_stats.py:103-104 | the largest of the chain lengths is the longest chain's length |
| EvolutionBigStats.MRCAStop | PyScripts/evolution_big_stats.py:103-113 | every depth up to the returned ii holds exactly one distinct tag and depth ii + 1 is past the longest chain or does not; every chain reaching ii carries the returned tag there; the time is the first gene's time entry at ii |
| EvolutionBigStats.OneColumnTag | PyScripts/evolution_big_stats.py:108-109 | at a depth with one distinct item every chain reaching it carries that item |
| EvolutionBigStats.WalkEndStops | PyScripts/evolution_big_stats.py:107-112 | the walk passes only depths with exactly one distinct item and stops at one without, or at the bound |
| EvolutionBigStats.Parsed | PyScripts/evolution_big_stats.py:121 | one reading per entry of a time chain |
| EvolutionBigStats.Values | PyScripts/evolution_big_stats.py:121 | when every entry reads as an integer, one value per entry |
| EvolutionBigStats.Differences | PyScripts/evolution_big_stats.py:120-121 | one difference fewer than values, none for fewer than two |
| EvolutionBigStats.TimeOfExistence | PyScripts/evolution_big_stats.py:116-122 | only the first gene's time chain is used because the `return` sits inside the outer loop; with no genes nothing is returned |
| EvolutionBigStats.ChainDifferences | PyScripts/evolution_big_stats.py:120-121 | the differences of consecutive entries of one chain, or ValueError when an entry it reads is not an integer |
| EvolutionBigStats.ValuesEntryNone | PyScripts/evolution_big_stats.py:121 | one entry that is not an integer spoils the whole chain |
| EvolutionBigStats.ValuesAllSome | PyScripts/evolution_big_stats.py:121 | when every entry reads, the values are exactly the numbers read |
| EvolutionBigStats.DifferencesNonNegative | PyScripts/evolution_big_stats.py:120-121 | the differences of a non-decreasing chain are never negative |
| EvolutionBigStats.GeneTimesOfExistence | Host.cpp:484-487 | for a gene with k >= 1 parents whose mutation times grow, the inner loop gives k gaps between successive mutation times and the origin time, none negative |
| EvolutionBigStats.GeneMarkerTimeOfExistence | Host.cpp:489-490 | for a gene written with the -1 marker the loop reports one span, origin + 1: the marker is read as time -1 |
| EvolutionBigStats.PairDiffs | PyScripts/evolution_big_stats.py:120-121 | a chain of two entries gives the one gap between them |
| EvolutionMutCount.TagKey | PyScripts/evolution_mut_count.py:34 | IndexError exactly below four fields, ValueError exactly when the fourth field is not an integer, otherwise that integer |
| EvolutionMutCount.MutCount | PyScripts/evolution_mut_count.py:39 | the number n of whole field pairs after the fourth field: 4 + 2n fields, or one more |
| EvolutionMutCount.LoadHostPopulation | PyScripts/evolution_mut_count.py:19-43 | the loop's result is the list of counts the fold over the file describes, `None` when the file does not open |
| EvolutionMutCount.CountLinesRaise | PyScripts/evolution_mut_count.py:27-39 | an exception raised on some line ends the loader with that exception, whatever follows |
| EvolutionMutCount.CountLinesData | PyScripts/evolution_mut_count.py:28-31 | lines holding '#' or "===" are never counted: counting a file is counting its gene lines |
| EvolutionMutCount.Keys | PyScripts/evolution_mut_count.py:34 | one dedup key per line, its own tag |
| EvolutionMutCount.CountLinesFirst | PyScripts/evolution_mut_count.py:33-39 | after a successful load every gene line has a tag, the kept tags are the distinct tags in first-appearance order, and the k-th count is that of the first gene line carrying the k-th tag |
| EvolutionMutCount.FirstCountsStep | PyScripts/evolution_mut_count.py:33-39 | one more gene line keeps that description: a known tag changes nothing and a new one appends its count |
| EvolutionMutCount.CountLinesOk | PyScripts/evolution_mut_count.py:33-39 | the loader raises nothing on lines whose gene lines all have an integer fourth field |
| EvolutionMutCount.GeneLineCount | Host.cpp:478-492 | the line the simulator writes for a gene of non-zero length reads back its own tag, and its count is its number of parents: k for k parent pairs and 0 for the -1 marker line |
| EvolutionMutCount.PopulationCounted | DataHandler.cpp:347-349 | every gene line of a host population the simulator writes has a tag the counter reads |
| EvolutionMutCount.HostFileCounts | PyScripts/evolution_mut_count.py:19-43 | the round trip with the writer (`saveHostPopulToFile`, DataHandler.cpp:339-351): counting a host genome file the simulator wrote succeeds, skips the comment and header lines, and gives one count per distinct gene tag in the order written, the parent count of the first gene line with that tag |
| Similarity.Mismatches | PyScripts/MHC_similiraty.py:24 | the number of differing positions of two equal-length texts, never more than their length |
| Similarity.HammingDistance | PyScripts/MHC_similiraty.py:20-24 | ValueError exactly for texts of different lengths; otherwise the number of mismatching positions |
| Similarity.MismatchesZero | PyScripts/MHC_similiraty.py:20-24 | the distance is zero exactly between equal texts |
| Similarity.MismatchesSymmetric | PyScripts/MHC_similiraty.py:20-24 | the distance does not depend on the order of its arguments |
| Similarity.MismatchesTriangle | PyScripts/MHC_similiraty.py:20-24 | the distance obeys the triangle inequality, so it is a metric on texts of one length |
| Similarity.MismatchesAppend | PyScripts/MHC_similiraty.py:20-24 | the distances of pieces side by side add up |
| Similarity.Streak | PyScripts/MHC_similiraty.py:31-36 | the counter after i positions is never more than i |
| Similarity.NoStreakNoRun | PyScripts/MHC_similiraty.py:32-40 | if the counter never reaches the threshold, no run of that many equal positions exists |
| Similarity.BitSimInRow | PyScripts/MHC_similiraty.py:27-42 | the loop returns False for texts of different lengths; otherwise True exactly when the threshold is at most zero or that many consecutive positions agree; two empty texts with a threshold of zero or less return nothing |
| Similarity.InRowSymmetric | PyScripts/MHC_similiraty.py:27-42 | similarity does not depend on the order of the two texts |
| Similarity.SimilarSelf | PyScripts/MHC_similiraty.py:27-42 | a non-empty text at least as long as the threshold is similar to itself |
| Similarity.SimilarBoundsDistance | PyScripts/MHC_similiraty.py:27-42 | similar texts with a positive threshold have equal lengths and differ in at most length minus threshold positions |
| Similarity.PairRow | PyScripts/MHC_similiraty.py:73 | the inner loop of outer step i visits n - i - 1 pairs |
| Similarity.PairsCount | PyScripts/MHC_similiraty.py:69-75 | the nested loops visit N(N-1)/2 pairs, the size of the array allocated |
| Similarity.PairAt | PyScripts/MHC_similiraty.py:71-75 | the pair (i, j) is visited when the counter k equals the pairs of earlier outer steps plus j - i - 1 |
| Similarity.PairsInRange | PyScripts/MHC_similiraty.py:72-73 | every visited pair (i, j) has i < j < N |
| Similarity.PairsComplete | PyScripts/MHC_similiraty.py:72-73 | every pair i < j < N is visited |
| Similarity.PairsOrdered | PyScripts/MHC_similiraty.py:72-73 | the pairs are visited in lexicographic order, so none twice |
| Similarity.Row | PyScripts/MHC_similiraty.py:73-75 | one entry per text compared by an inner loop |
| Similarity.RowFollowsPairRow | PyScripts/MHC_similiraty.py:72-75 | the inner loop of item i writes the entries of the pairs (i, j), i < j, in order |
| Similarity.PairRowsArePairs | PyScripts/MHC_similiraty.py:69-76 | the array of a whole individual has one entry per pair i < j, N(N-1)/2 in all, and entry k belongs to the k-th pair in loop order |
| Similarity.PairRowsAt | PyScripts/MHC_similiraty.py:71-75 | the entry written for the pair (i, j) is that pair's comparison |
| Similarity.NewPairArray | PyScripts/MHC_similiraty.py:70 | a fresh array of N(N-1)/2 ones |
| Similarity.RowLoop | PyScripts/MHC_similiraty.py:73-75 | one inner loop appends the comparisons of x with the later texts; under the Hamming distance it stops exactly when some pair has different lengths |
| Similarity.PairLoops | PyScripts/MHC_similiraty.py:69-76 | the nested loops fill the array with every pair's comparison in loop order, or end in the exception handler when a Hamming distance raises |
| Similarity.WithinDistances | PyScripts/MHC_similiraty.py:66-80 | NaN exactly when two texts of the individual have different lengths; otherwise N(N-1)/2 distances |
| Similarity.WithinDistancesAt | PyScripts/MHC_similiraty.py:72-75 | the distance of items i < j is stored where the loops reach (i, j) |
| Similarity.HamDistWhinIndiv | PyScripts/MHC_similiraty.py:66-80 | the array of within-individual distances, or NaN when one raises |
| Similarity.SimilarityFlagsAt | PyScripts/MHC_similiraty.py:52-58 | the flag of items i < j is 1 exactly when they are similar |
| Similarity.WithinSimilarityRange | PyScripts/MHC_similiraty.py:45-63 | the mean is defined exactly from two antigens on (below that the empty mean gives NaN), and it is a fraction in [0, 1] |
| Similarity.BitSimWhinIndiv | PyScripts/MHC_similiraty.py:45-63 | the mean of the similarity flags over all pairs i < j |
| Similarity.BetweenFlags | PyScripts/MHC_similiraty.py:87-92 | one flag per antigen of the first individual |
| Similarity.BetweenSelf | PyScripts/MHC_similiraty.py:83-96 | compared with itself, an individual whose antigens are non-empty and reach the threshold scores 1 everywhere |
| Similarity.BitSimBetweenIndv | PyScripts/MHC_similiraty.py:83-96 | entry k is 1 exactly when some antigen of the second individual is similar to antigen k of the first, otherwise 0 |
| Similarity.GridAt | PyScripts/MHC_similiraty.py:103-108 | the distance of antigens (a, b) is written at a times the second size plus b |
| Similarity.GridSize | PyScripts/MHC_similiraty.py:103 | the grid has one entry per pair of antigens, the size of the array allocated |
| Similarity.NewGridArray | PyScripts/MHC_similiraty.py:103 | a fresh array of the product of the two sizes |
| Similarity.HamDistBetweenIndv | PyScripts/MHC_similiraty.py:99-113 | the distance of every pair of antigens in row order, or NaN when some pair has different lengths |
| Population.InitialSpecies | PyScripts/antigen_similiraty.py:127-128 | IndexError exactly when the third line splits on single spaces into at most five pieces, ValueError exactly when the sixth piece is not an integer, otherwise that integer |
| Population.PopLinesRaise | PyScripts/antigen_similiraty.py:131-158 | an exception raised on some line ends the loader with that exception, whatever follows |
| Population.LoadThePopulation | PyScripts/antigen_similiraty.py:118-165 | the loop's result is the species list the fold over the file describes; PyScripts/anti_gen_similiraty.py:117-162 holds the same loader line for line |
| Population.OnHeader | PyScripts/antigen_similiraty.py:139-156 | the header branch of the loop body, after the species number is read, does what the header step describes, raising UnboundLocalError where an unassigned variable is read |
| Population.MissingFileRaises | PyScripts/antigen_similiraty.py:127-128 | a file that cannot be read raises IndexError on its third line before `open` is reached, so the IOError handler never runs |
| Population.PopulationIndividuals | PyScripts/antigen_similiraty.py:131-160 | ignoring species, the loader cuts the file into individuals exactly as the generic header-split loader does with the flag set on the first header |
| Population.PopulationCounts | PyScripts/antigen_similiraty.py:131-160 | there is one individual per header line (one when there is no header), and the individuals hold the first fields of the data lines in file order |
| Population.SpeciesNonEmpty | PyScripts/antigen_similiraty.py:139-160 | no species in the result is empty |
| InfectionVsMhc.ExposedEntry | PyScripts/infection_vs_MHC_stats.py:58-62 | IndexError exactly when a header has at most seven fields, ValueError exactly when its eighth is not an integer; a positive number keeps the fields after the eleventh but the last, anything else gives an empty list |
| InfectionVsMhc.LoadPathoExposed | PyScripts/infection_vs_MHC_stats.py:49-68 | the loop's result is the list of entries the fold over the file describes, `None` when the file does not open; the notebook copy (lines 80-100) is the same loader |
| InfectionVsMhc.ExposedFromAppend | PyScripts/infection_vs_MHC_stats.py:54-64 | running the loop over two stretches of lines is running it over the first and then over the second from where it stopped |
| InfectionVsMhc.ExposedPerHeader | PyScripts/infection_vs_MHC_stats.py:54-64 | the loader raises exactly when some header's eighth field is missing or not a number; otherwise it appends one entry per header, in file order, and keeps what came before |
| InfectionVsMhc.ExposedSkips | PyScripts/infection_vs_MHC_stats.py:55-56 | lines that are not headers leave the list unchanged |
| InfectionVsMhc.SimulatorHeaderExposesNothing | Host.cpp:473-475 | a host header the simulator writes has eleven fields, so the slice after the eleventh field is empty whatever the count |
| InfectionVsMhc.Empties | PyScripts/infection_vs_MHC_stats.py:62 | n empty entries |
| InfectionVsMhc.GeneLinesHaveNoHeader | Host.cpp:478-508 | no gene line the simulator writes is taken for a header |
| InfectionVsMhc.HostBlockExposesNothing | Host.cpp:471-510 | one host's block adds exactly one empty entry |
| InfectionVsMhc.PopulationExposesNothing | DataHandler.cpp:347-349 | the blocks of n hosts add n empty entries |
| InfectionVsMhc.NothingExposedInHostFile | DataHandler.cpp:339-351 | on a host genome file the simulator wrote the loader gives one entry per host, and every entry is empty whatever the host presented |
| InfectionVsMhc.HeadExposesNothing | DataHandler.cpp:343-346 | the two comment lines at the top of the file leave the list empty |
| InfectionVsMhc.UniqueMhcInHostOnly | PyScripts/infection_vs_MHC_stats.py:71-80 | one list per host, holding each of its alleles once, exactly the alleles it carries, in order of first appearance; the notebook copy (lines 103-112) is the same function |
| InfectionVsMhc.UniqueCounts | PyScripts/infection_vs_MHC_stats.py:85-89 | one count per host |
| InfectionVsMhc.Lengths | PyScripts/infection_vs_MHC_stats.py:90-93 | one count per host's entry |
| InfectionVsMhc.NumbersMeaning | PyScripts/infection_vs_MHC_stats.py:83-94 | entry k of the first array is the number of different alleles host k carries, at most its number of alleles; entry k of the second is the number of species host k presented |
| InfectionVsMhc.CalculateTheNumbers | PyScripts/infection_vs_MHC_stats.py:83-94 | the two loops give the distinct-allele counts and the presented-species counts; the notebook copy (lines 115-126) is the same function |
| InfectionVsMhc.RunNumbersShape | PyScripts/.ipynb_checkpoints/infection_vs_MHC_stats-checkpoint.py:176-189 | a run is kept exactly when both loaders read its genome file; its two arrays then have one entry per host (or per header) and end with the stacked zero; a missing file is skipped |
| InfectionVsMhc.HostFileRunPresentsNothing | PyScripts/.ipynb_checkpoints/infection_vs_MHC_stats-checkpoint.py:176-189 | on a host genome file the simulator wrote, every pathogen number of a kept run is 0: one per host plus the stacked zero |
| DetailedGeneStats.GeneLineEntry | PyScripts/detailed_MHC_gene_stats.py:40-44 | IndexError below two fields; a line naming neither chromosome adds nothing; on a chromosome name, IndexError below four fields and ValueError when the fourth is not an integer, otherwise that integer on the chromosome the line names |
| DetailedGeneStats.ToHosts | PyScripts/detailed_MHC_gene_stats.py:41-45 | one host per block, its chromosome-one tags and its chromosome-two tags |
| DetailedGeneStats.LoadHostPopulation | PyScripts/detailed_MHC_gene_stats.py:21-49 | the loop's result is the per-chromosome tag lists the fold over the file describes, `None` when the file does not open |
| DetailedGeneStats.GeneListCount | PyScripts/detailed_MHC_gene_stats.py:30-49 | one host per header (one when there is none), and `None` for a file that does not open |
| DetailedGeneStats.TagsSplit | PyScripts/detailed_MHC_gene_stats.py:41-44 | the two chromosome lists together hold at most the entries read, and all of them exactly when every line names a chromosome |
| DetailedGeneStats.AnaliseGeneContent | PyScripts/detailed_MHC_gene_stats.py:52-64 | one row per host, in host order, holding its gene counts and distinct-tag counts |
| DetailedGeneStats.UniqueBound | PyScripts/detailed_MHC_gene_stats.py:60-61 | a list has at most as many different items as items |
| DetailedGeneStats.StatsBounds | PyScripts/detailed_MHC_gene_stats.py:58-63 | a chromosome has at most as many different tags as genes; the total is the sum of the chromosomes; the host's different tags are at least those of either chromosome, at most both chromosomes' together, and at most the total |
| Heterozygosity.LoadHostPopulation | PyScripts/host_heterozygoty_check.py:11-36 | the loop's result is the per-host tag lists the generic header-split loader gives with the flag set on the first data line, `None` when the file does not open |
| Heterozygosity.HostTagsInOrder | PyScripts/host_heterozygoty_check.py:20-32 | the hosts hold, one after another, the tags of all data lines in file order; the loader raises exactly when some data line's tag cannot be read |
| Heterozygosity.NoRepeatsIsNoDup | PyScripts/host_heterozygoty_check.py:44 | the equal-lengths test holds exactly when no two positions carry the same tag |
| Heterozygosity.DistinctShorter | PyScripts/host_heterozygoty_check.py:44 | a list with a repeat loses an item when its repeats are dropped |
| Heterozygosity.Heterozygous | PyScripts/host_heterozygoty_check.py:42-45 | the count never exceeds the number of hosts |
| Heterozygosity.CheckHeteroZyg | PyScripts/host_heterozygoty_check.py:39-46 | the loop counts the hosts without a repeated tag and divides by the number of hosts; no hosts raises ZeroDivisionError |
| Heterozygosity.FractionRange | PyScripts/host_heterozygoty_check.py:39-46 | the fraction lies in [0, 1]; it is 1 exactly when no host repeats a tag and 0 exactly when every host does |
| Heterozygosity.AllOrNone | PyScripts/host_heterozygoty_check.py:42-45 | the count equals the number of hosts exactly when every host qualifies, and 0 exactly when none does |
| Segregation.BitKey | PyScripts/MHC_segregation_sex_select.py:38-39 | IndexError on a blank line; otherwise the integer of the first field when it is a binary number, and that conversion's error when it is not |
| Segregation.LoadHostPopulation | PyScripts/MHC_segregation_sex_select.py:20-45 | the loop's result is the per-host key lists the generic header-split loader gives with the flag set on the first data line, `None` when the file does not open |
| Segregation.HostKeysInOrder | PyScripts/MHC_segregation_sex_select.py:29-40 | the hosts hold, one after another, the keys of all data lines in file order; the loader raises exactly when some data line's first field is missing or not a binary number |
| Segregation.Holding | PyScripts/MHC_segregation_sex_select.py:67-71 | at most the number of hosts |
| Segregation.HoldingBoth | PyScripts/MHC_segregation_sex_select.py:77-81 | at most the number of hosts |
| Segregation.HoldingPositive | PyScripts/MHC_segregation_sex_select.py:55-71 | a gene is carried by some host exactly when it occurs in the population |
| Segregation.CalculateCooccurMatrix | PyScripts/MHC_segregation_sex_select.py:48-84 | `None` exactly for an empty host list; otherwise, per distinct gene of the population, the number of hosts carrying it, and per pair of genes the hosts carrying both over the larger of their two frequencies |
| Segregation.Frequencies | PyScripts/MHC_segregation_sex_select.py:65-71 | a fresh array holding, per gene, the number of hosts carrying it |
| Segregation.FillMatrices | PyScripts/MHC_segregation_sex_select.py:73-82 | fresh matrices holding, per pair of genes, the hosts carrying both and the larger of the two frequencies |
| Segregation.GeneListOf | PyScripts/MHC_segregation_sex_select.py:55-61 | the distinct genes of the population in order of first appearance |
| Segregation.AddGenes | PyScripts/MHC_segregation_sex_select.py:57-61 | the inner loop appends each of one host's genes not yet listed |
| Segregation.CountHolding | PyScripts/MHC_segregation_sex_select.py:67-70 | the loop counts the hosts carrying one gene |
| Segregation.CountBoth | PyScripts/MHC_segregation_sex_select.py:77-80 | the loop counts the hosts carrying both genes |
| Segregation.Divide | PyScripts/MHC_segregation_sex_select.py:84 | a fresh matrix of the entry-by-entry quotients |
| Segregation.HoldingBothBounds | PyScripts/MHC_segregation_sex_select.py:77-82 | a pair is carried by no more hosts than either gene; the count is symmetric; a gene with itself counts its own carriers |
| Segregation.HoldingBothAll | PyScripts/MHC_segregation_sex_select.py:77-82 | the pair count equals a's carriers exactly when every host carrying a carries b |
| Segregation.RatioProps | PyScripts/MHC_segregation_sex_select.py:82-84 | every listed gene is carried at least once, so no entry divides by zero; the matrix is symmetric, its entries lie in [0, 1], the diagonal is 1, and an entry is 1 exactly when the two genes are carried by the same hosts |
| CoPresence.LoadPresentedSpecies | PyScripts/pathogen_spp_cooccur.py:36-51 | the loop's result is the species lists the fold over the file describes, `None` when the file does not open or a line fails; PyScripts/co_occurence_of_presented_pathogen_spp.py:31-46 is the same loader |
| CoPresence.PresentedFromNone | PyScripts/pathogen_spp_cooccur.py:41-50 | once a line has failed, the whole load gives `None` |
| CoPresence.PresentedPerLine | PyScripts/pathogen_spp_cooccur.py:41-47 | the loader succeeds exactly when every " ===" line lists integers after an "are:", and then it holds one list per such line |
| CoPresence.PresentedEntryReadBack | PyScripts/pathogen_spp_cooccur.py:43-44 | a line "… are: 3 7 1 ===" reads back as the list it names, whatever precedes "are:" as long as that holds no "are:" itself |
| CoPresence.AfterFirstAre | PyScripts/pathogen_spp_cooccur.py:43 | the piece after the first "are:" is the rest of the line when the rest holds no 'a' |
| CoPresence.BeforeFirstMark | PyScripts/pathogen_spp_cooccur.py:44 | the piece before the first " ===" is the text before it when that text holds no '=' |
| CoPresence.SpeciesTextSplits | PyScripts/pathogen_spp_cooccur.py:44 | splitting a printed species list gives one word per number |
| CoPresence.ThirdInt | PyScripts/co_occurence_of_presented_pathogen_spp.py:21-24 | the third piece of a line split on single spaces, when there is one and it is an integer |
| CoPresence.ParamsFromCsv | PyScripts/co_occurence_of_presented_pathogen_spp.py:17-28 | the host population size from line 8 and the number of species from line 9, each the third space-separated piece; any failure gives `None` |
| CoPresence.ParamsFromShortFile | PyScripts/co_occurence_of_presented_pathogen_spp.py:21-28 | a missing file, or one shorter than nine lines, gives `None` |
| CoPresence.PyInt | PyScripts/pathogen_spp_cooccur.py:27-28 | a float is truncated toward zero |
| CoPresence.ParamsFromJson | PyScripts/pathogen_spp_cooccur.py:21-33 | a result only when the file holds an object with both keys, and then each value converted to an integer |
| CoPresence.Both | PyScripts/pathogen_spp_cooccur.py:71-74 | at most one count per list |
| CoPresence.CalculateCoocurenceMtx | PyScripts/pathogen_spp_cooccur.py:54-75 | a fresh square matrix of the number of species; with a non-zero population size entry (a, b) is the number of lists holding both species, over the population size; PyScripts/co_occurence_of_presented_pathogen_spp.py:49-58 is the same function |
| CoPresence.AddPair | PyScripts/pathogen_spp_cooccur.py:71-74 | the innermost loop adds the number of lists holding both species at (i, j) and at (j, i) and changes nothing else |
| CoPresence.Scale | PyScripts/pathogen_spp_cooccur.py:75 | every entry divided by the population size |
| CoPresence.BothSymmetric | PyScripts/pathogen_spp_cooccur.py:72 | the count does not depend on the order of the two species |
| CoPresence.CoCountShape | PyScripts/pathogen_spp_cooccur.py:68-75 | the matrix is symmetric with a zero diagonal; with a positive population size no smaller than the number of lists every entry lies in [0, 1] |
| CoPresence.BothCountsLists | PyScripts/pathogen_spp_cooccur.py:71-74 | a pair counts 0 exactly when no list names both species, and the number of lists exactly when every list does |
| InfectionStatsBig.FileLen | PyScripts/infectionStatsBig.py:72-77 | IOError for a file that does not open, UnboundLocalError for an empty file (the loop variable is never bound), otherwise the number of lines |
| InfectionStatsBig.Rest | PyScripts/infectionStatsBig.py:93 | the fields after the first, in order |
| InfectionStatsBig.GetUniqueGenes | PyScripts/infectionStatsBig.py:80-99 | the loop's result is the distinct values of the collected fields, ValueError when one is not an integer |
| InfectionStatsBig.IdWordsStep | PyScripts/infectionStatsBig.py:86-93 | one more line adds its fields after the first when it is read, and nothing when it holds '#' or comes before `firstIndex` |
| InfectionStatsBig.AddIds | PyScripts/infectionStatsBig.py:93-98 | the inner loop succeeds exactly when every field reads as an integer, and then extends the list by the new values in first-appearance order |
| InfectionStatsBig.IdWordsMembers | PyScripts/infectionStatsBig.py:86-93 | a field is collected exactly when it is a field after the first of a line that is read |
| InfectionStatsBig.UniqueGenesMeaning | PyScripts/infectionStatsBig.py:80-99 | each number is listed once; a number is listed exactly when it is the value of a collected field; ValueError exactly when some collected field is not an integer |
| InfectionStatsBig.PairAt | PyScripts/infectionStatsBig.py:117-118 | the line number from 1 and the first field equal to the text, or ValueError exactly when no field is |
| InfectionStatsBig.GetIndexGivenGeneID | PyScripts/infectionStatsBig.py:102-119 | the loop's result is the pairs the fold over the file describes, IOError when the file does not open |
| InfectionStatsBig.IndexPairsRaise | PyScripts/infectionStatsBig.py:110-118 | an exception raised on some line ends the function with that exception |
| InfectionStatsBig.MentionCount | PyScripts/infectionStatsBig.py:116 | at most one mention per line |
| InfectionStatsBig.IndexPairsOk | PyScripts/infectionStatsBig.py:110-118 | the loop succeeds exactly when every line that is read and mentions the text holds it as a whole field |
| InfectionStatsBig.IndexPairsPoint | PyScripts/infectionStatsBig.py:110-119 | one pair per mentioning line, in file order, each naming the line from 1 and the position of a field equal to the number's text |
| InfectionStatsBig.LongerIdRaises | PyScripts/infectionStatsBig.py:102-118 | under the default `firstIndex` 1 that every caller uses, a file whose first line is anything and whose second line holds another number and then the queried number with a trailing 0 passes the line test but holds no field equal to the number, so the function raises ValueError |
| InfectionStatsBig.LongerIdNotField | PyScripts/infectionStatsBig.py:117-118 | such a line's fields hold no field equal to the queried number |
| InfectionStatsBig.SecondLineRaises | PyScripts/infectionStatsBig.py:110-118 | under the default `firstIndex` 1, the first line is skipped, and a second line that mentions the text without holding it as a field raises ValueError |
| InfectionStatsBig.LongerIdLineRead | PyScripts/infectionStatsBig.py:111-116 | such a line is no comment and holds a blank followed by the queried number |
| InfectionStatsBig.LongerIdLineSplit | PyScripts/infectionStatsBig.py:117 | such a line's fields are the two numbers as printed |
| InfectionStatsBig.FieldPairsPoint | PyScripts/infectionStatsBig.py:102-119 | the intended lookup gives one pair per line holding the number as a field after the first, each naming such a line and the field, in file order |
| InfectionStatsBig.IndexInFileByField | PyScripts/infectionStatsBig.py:102-119 | the intended lookup raises only when the file does not open |
| InfectionStatsBig.FirstMention | PyScripts/infectionStatsBig.py:180-189 | the first line from a position on that is read and mentions the text, and no such line before it |
| InfectionStatsBig.GetFirstOccurence | PyScripts/infectionStatsBig.py:173-194 | the loop stops at the first mentioning line and gives its pair, or an empty array when there is none; the "not found" branch is never taken because a length is never negative |
| InfectionStatsBig.FirstOfIndexPairs | PyScripts/infectionStatsBig.py:173-194 | where the full lookup succeeds, the first-occurrence lookup gives its first pair, or nothing when it found none |
| InfectionStatsBig.FirstMentionUnique | PyScripts/infectionStatsBig.py:180-189 | the first mention is the only position that mentions with no mention before it |
| InfectionStatsBig.FirstOccurrenceOfIndex | PyScripts/infectionStatsBig.py:173-194 | where the full lookup succeeds, the first-occurrence lookup gives its first pair or nothing |
| InfectionStatsBig.BackgroundRow | PyScripts/infectionStatsBig.py:203-205 | IndexError exactly when the queried position lies outside the line split on single blanks (a negative one counting from the end) |
| InfectionStatsBig.BackgroundRowFields | PyScripts/infectionStatsBig.py:203-205 | a row holds every field but field 0 and the queried one, in line order, each read as an integer |
| InfectionStatsBig.DeleteThenRest | PyScripts/infectionStatsBig.py:204-205 | deleting position q and then dropping the first item leaves every other item after the first, in order |
| InfectionStatsBig.GetBkgroundDataOfGivenGeneByID | PyScripts/infectionStatsBig.py:197-206 | the loop's result is the row of each index pair's line, or the first exception |
| InfectionStatsBig.BackgroundDataRows | PyScripts/infectionStatsBig.py:202-206 | one row per index pair, each the row of the line the pair names |
| InfectionStatsBig.Kept | PyScripts/infectionStatsBig.py:347-350 | no more items than given |
| InfectionStatsBig.RemoveShortLivedMHC | PyScripts/infectionStatsBig.py:341-356 | the items that lasted at least `minGeneAge` generations, in order, with the counts before and after; an empty list raises ZeroDivisionError |
| InfectionStatsBig.KeptAppend | PyScripts/infectionStatsBig.py:347-350 | filtering a concatenation filters each part, so the kept items stay in order |
| InfectionStatsBig.KeptMembers | PyScripts/infectionStatsBig.py:349 | exactly the long-lived items are kept |
| InfectionStatsBig.KeptIdempotent | PyScripts/infectionStatsBig.py:347-350 | filtering the kept items again changes nothing |
| InfectionStatsBig.GetTheMeanRelatFitt | PyScripts/infectionStatsBig.py:359-378 | one column per generation of the longest item, column i holding entry i of every item that has one, in order |
| InfectionStatsBig.ColumnOf | PyScripts/infectionStatsBig.py:371-377 | the inner loop collects entry i of every item that has one |
| InfectionStatsBig.MaxLenIsMax | PyScripts/infectionStatsBig.py:364-368 | no item is longer than the longest, and some item is that long |
| InfectionStatsBig.ColumnSize | PyScripts/infectionStatsBig.py:370-377 | column i has one entry per item longer than i, so every column of the result has at least one entry |
| PackedPlots.LoadParamSettings | PyScripts/packed_plots_of_MHC_alleles.py:31-48 | the loop's result is the third field of every line that holds no '#' and has at least three fields, in file order; `None` when the file does not open |
| PackedPlots.ParamsAppend | PyScripts/packed_plots_of_MHC_alleles.py:37-44 | the list of a file is the lists of its parts one after the other |
| PackedPlots.ParamsOfOtherLines | PyScripts/packed_plots_of_MHC_alleles.py:38-44 | comments and lines of fewer than three fields add nothing |
| PackedPlots.ParamsOfParameterLines | PyScripts/packed_plots_of_MHC_alleles.py:37-44 | in a file of parameter lines item k of the list is the third field of line k |
| PackedPlots.CompareParams | PyScripts/packed_plots_of_MHC_alleles.py:51-75 | the loop's result is the verdict over the zipped every-third-from-the-end items, or None for lists of different lengths |
| PackedPlots.VerdictStep | PyScripts/packed_plots_of_MHC_alleles.py:56-69 | one more pair leaves the verdict as it was after a mismatch or when the pair does not take part, and otherwise sets it to whether the pair agrees |
| PackedPlots.VerdictMismatchStays | PyScripts/packed_plots_of_MHC_alleles.py:67-69 | once a mismatch is found the loop breaks and the verdict stays False |
| PackedPlots.VerdictMeaning | PyScripts/packed_plots_of_MHC_alleles.py:54-69 | the verdict is False exactly when a compared pair differs, and None exactly when no pair is compared |
| PackedPlots.ComparisonMeaning | PyScripts/packed_plots_of_MHC_alleles.py:51-75 | None for lists of different lengths; on lists of equal length False exactly when a compared item differs, None exactly when no item is compared (the first two pairs and the VAR and VARX items are not) |
| PackedPlots.ComparisonTrue | PyScripts/packed_plots_of_MHC_alleles.py:51-75 | True exactly when some item is compared and every compared item agrees |
| PackedPlots.PairsOfTemplate | PyScripts/packed_plots_of_MHC_alleles.py:56 | pair j of the zipped step slices is item n - 1 - 3j of both lists |
| PackedPlots.CompareSelf | PyScripts/packed_plots_of_MHC_alleles.py:51-75 | a parametrisation mismatches itself exactly when one of its compared items reads as NaN, since `float('nan')` is not equal to itself |
| PackedPlots.LookForVAR | PyScripts/packed_plots_of_MHC_alleles.py:78-90 | the loop's result is the positions of the two markers |
| PackedPlots.VarPositionsMeaning | PyScripts/packed_plots_of_MHC_alleles.py:82-89 | each marker is found at its last position, or 0 when the template lacks it |
| PackedPlots.DateOf | PyScripts/packed_plots_of_MHC_alleles.py:98 | a date exactly when there are three parts that read as integers forming a valid date, and then that date; later parts are ignored |
| PackedPlots.ReadDateOfText | PyScripts/packed_plots_of_MHC_alleles.py:93-103 | a valid date written as y-m-d reads back as itself, with or without further '-' parts |
| PackedPlots.DateTextSplits | PyScripts/packed_plots_of_MHC_alleles.py:97 | the date text splits on '-' into its three numbers |
| PackedPlots.DateFromShortFile | PyScripts/packed_plots_of_MHC_alleles.py:106-114 | a file without a second line gives no date |
| PackedPlots.DateFromParamLine | PyScripts/packed_plots_of_MHC_alleles.py:106-121 | a second line "w0 w1 y-m-d.tail", with no blank inside the words, gives the date y-m-d |
| PackedPlots.ThirdPieceCut | PyScripts/packed_plots_of_MHC_alleles.py:110 | in "w0 w1 x.tail" the third blank-separated piece cut at '.' is x |
| InfectionVisual.Floats | PyScripts/infectionStatsVisual.py:25 | a result exactly when every text reads as a float, and then one value per text |
| InfectionVisual.FieldsRecord | PyScripts/infectionStatsVisual.py:21-25 | IndexError exactly below five fields; otherwise ValueError when a number does not read, else the four numbers and the series of every ';' piece but the last |
| InfectionVisual.LoadDataFromDataFile | PyScripts/infectionStatsVisual.py:13-26 | the loop's result is the record of every line without '#', or the first exception, IOError when the file does not open |
| InfectionVisual.DataLinesStep | PyScripts/infectionStatsVisual.py:18-19 | one more line joins the data lines exactly when it holds no '#' |
| InfectionVisual.DataLinesRaise | PyScripts/infectionStatsVisual.py:17-25 | an exception raised on some line ends the function with that exception |
| InfectionVisual.DataLinesMembers | PyScripts/infectionStatsVisual.py:18-19 | the data lines are exactly the lines without '#' |
| InfectionVisual.DataListMeaning | PyScripts/infectionStatsVisual.py:13-26 | the file is read without an exception exactly when every line without '#' gives a record, and then there is one record per such line, in order |
| InfectionVisual.GetListOfParamsSets | PyScripts/infectionStatsVisual.py:29-36 | the loop's result is the distinct parameter pairs of the records |
| InfectionVisual.ParamsSetsMeaning | PyScripts/infectionStatsVisual.py:29-36 | each parameter pair of the records is listed once, nothing else is, and the pairs come in the order of their first record |
| ParamJson.Lower | PyScripts/transform_paramInput_2_json.py:41 | the same length, every ASCII capital replaced by its small letter and every other character kept |
| ParamJson.StripNewlines | PyScripts/transform_paramInput_2_json.py:37 | a prefix of the line not ending in a newline, with only newlines removed after it |
| ParamJson.TrimmedLines | PyScripts/transform_paramInput_2_json.py:37 | one trimmed line per line of the file |
| ParamJson.ValueOf | PyScripts/transform_paramInput_2_json.py:42-48 | IndexError exactly for a line without " = "; otherwise the text after it as an integer if it is one, else as a float if it is one, else as text |
| ParamJson.TransformInputFile | PyScripts/transform_paramInput_2_json.py:33-53 | the loops' result is the map the fold over the trimmed lines describes, with both forced keys set to 0 |
| ParamJson.UpdateFromLine | PyScripts/transform_paramInput_2_json.py:40-48 | the inner loop over the keys does what the per-line key loop describes |
| ParamJson.CollectStep | PyScripts/transform_paramInput_2_json.py:39-48 | one more line goes through the loop over the keys |
| ParamJson.CollectRaise | PyScripts/transform_paramInput_2_json.py:39-48 | an exception raised on some line ends the function with that exception |
| ParamJson.KeyLoopMeaning | PyScripts/transform_paramInput_2_json.py:40-48 | one line raises exactly when it holds a key but no " = ", with IndexError; otherwise every key it holds gets its value and every other entry stays |
| ParamJson.CollectLast | PyScripts/transform_paramInput_2_json.py:39-48 | once the earlier lines are read, the last line raises exactly when it holds a key without " = " |
| ParamJson.CollectRaises | PyScripts/transform_paramInput_2_json.py:39-48 | the lines are read without an exception exactly when no line holds a key without " = "; the exception is IndexError |
| ParamJson.LastLineSnoc | PyScripts/transform_paramInput_2_json.py:39-43 | the last line holding a key is the new line when it holds it, else the one before |
| ParamJson.CollectOk | PyScripts/transform_paramInput_2_json.py:39-48 | without an exception a key is in the map exactly when it is listed and some line holds it, and it holds the value of the last such line |
| ParamJson.TransformedMeaning | PyScripts/transform_paramInput_2_json.py:33-53 | the only exception is IndexError; the map holds only listed keys, both forced keys at 0, and every other key exactly when some line holds it, with the last such line's value |

## Left out

- Random number generation (RandomNumbs.cpp, Random.cpp, `NextReal`, `NextInt`, `NextLongInt`, `getUni`, shuffles): every draw is an input of the operation that uses it, and the model assumes nothing about a draw beyond the generator's range.
- Floating-point arithmetic: probabilities and fractions are `real`. Python's `float()` is a function parameter `toFloat`, about which the model assumes nothing. Only the parameter comparison of packed_plots_of_MHC_alleles.py keeps NaN apart (`PackedPlots.PyFloat`). Elsewhere the floats are stored as `real`, with no NaN.
- Host fitness functions (Host.cpp:397-441), `MMtoPMscaling`, the Shannon sum and standard deviation in DataHandler.cpp, and the means, medians, regressions and plots of the scripts: floating-point statistics with no discrete property to state.
- Selection and mating in Environment.cpp (the fitness roulette wheels and the `matingWith*` functions): random draws over floating-point fitness.
- Environment operations outside the modelled bookkeeping: `setPathoPopulatioDistincSpp`, `infectOneFromOneSpecHetero`, `mutateHosts*`, `mutatePathogens`, the `calculateHostsFitness*` and `clear*InfectionData` loops, and the getters. They are loops over the population around per-individual operations that are modelled, or plain field reads.
- src/Environment.cpp and src/Tagging_system.cpp: the OpenMP and lock-protected versions of the same logic. Concurrency is not modelled.
- The 64-bit wrap-around of the tag counter: the counter is an unbounded `nat`.
- Writing to files: DataHandler's `save*` methods are modelled by the text they write and by their header-once flags. `savePathoPopulToFile` and the file streams themselves are not part of this model.
- `Host::setNewHomozygHost` is declared in Host.h but not defined in Host.cpp, so this model does not include it. `Environment.Environment.SetHostClonalPopulation` takes the cloned host's chromosome as a parameter.
- InfectionVisual.GetListOfParamsSets: equal reals make equal pairs. In Python, a pair holding a NaN read from two different lines is never found by `in`, so the pair would be listed twice.
- Environment.cpp calls `setNewPathogen` and `setNewPathogenNthSwap` with the argument lists of Pathogen.h (a chromosome size, no random generator, no tag). Pathogen.cpp defines them with a random generator and a tag. Environment.cpp also calls `getSingleAntigen(0)`, which Pathogen.cpp does not define. The model settles this as follows: every new pathogen takes the next tag of the shared counter, the draws are parameters, and `getSingleAntigen(0)` is read as the bits of the template's antigen. The members below rest on that choice.
- Environment.CladeTemplate: the tag c + k + 1 of template k, and its antigen taken from the previous template's bits, follow that choice. The source's call passes no tag.
- Environment.NewSwappedPathogen: "under the next tag" follows that choice.
- Environment.NewRandomPathogen: "takes the next tag" follows that choice.
- Environment.RandomPathogensProps: the tag c + k + 1 of the k-th new pathogen follows that choice.
- Environment.Environment.CladeTemplates: the four tags it takes follow that choice.
- Environment.Environment.SetPathoPopulationFourClades: the four tags it takes follow that choice.
- The antigen genes that H2Pinteraction.cpp reads through `patho.getChomosome()` come from a member that Pathogen.cpp does not have. `H2Pinteraction` takes them as a parameter.
- The `presentedPathos` sum in `setUniqueGenes` (Environment.cpp:1360-1367) accumulates a field that the gene class in Gene.h and Gene.cpp does not have. `Environment.Environment.SetUniqueGenes` models the tag dedup, `occurence` and `numbOfHostsBearing` only.
- The unsigned `i >= 0` countdown loops in Environment.cpp's selection code never end normally, and are not modelled.
- Directory walking, parameter-template selection of runs, JSON writing and the `getTheData` drivers of the scripts are I/O and are not modelled. The exception is the per-run record shaping of the notebook copy of infection_vs_MHC_stats.py (`InfectionVsMhc.RunNumbersShape`). That copy's sort of output records by (VAR, VARX, slope, intercept) follows a regression and is left out too.
- `loadRawBitstrings` of evolution_big_stats.py, and the plotting helpers of the same script, are not modelled.
- Text.ParseInt: reads an optional sign and ASCII decimal digits between blanks. It does not read Python's underscores or non-ASCII digits.
- Text.Split: splits on ASCII whitespace only.
- ParamJson.Lower: lower-cases ASCII letters only, as the parameter files hold no others.
- ParamJson.Matches: treats each key as plain text rather than a regular expression. The listed keys hold only letters and underscores, so the two agree.
- CoPresence.CalculateCoocurenceMtx: states nothing about the entries when `popSize` is 0, where numpy produces infinities and NaN.
- CoPresence.CalculateCoocurenceMtx: the species count is a `nat`. A negative count read from a parameter file makes `np.zeros` raise ValueError, and that case is not modelled.
- Environment.Allocation, Environment.DivSpecies, Environment.UniformSpecies, Environment.FourClades, Environment.Environment.SetPathoPopulatioDivSpecies, Environment.Environment.SetPathoPopulatioUniformGenome and Environment.Environment.SetPathoPopulationFourClades: each requires a clamped species count other than 0. The source divides `pop_size` by that count (Environment.cpp:251, 353, 398-399), so a pathogen population of 0 or a species count of 0 is an integer division by zero there, which the model does not describe. See "## Findings".
- PackedPlots.ReadDateOfText: states the read-back only for dates written without leading zeros.
- Host.Host.constructor, Gene.Gene.constructor, Antigen.Antigen.constructor and Pathogen.Pathogen.constructor: the C++ default constructors leave scalar fields uninitialised. These constructors state only what the default constructors set, such as empty vectors.
- Similarity.BitSimWhinIndiv: NaN is `None`. No step inside the exception handler raises on a list of texts, so `None` comes only from the mean of an empty array, for fewer than two items.
- Bits.FlipWhere and the mutation methods: the drawn numbers and probabilities are compared as `real`. The 53-bit precision of a `double` is not modelled.

## Findings

| source | as written | input that shows it | evidently intended | confidence | as-written member | corrected member |
|---|---|---|---|---|---|---|
| PyScripts/infectionStatsBig.py:116-118 | a line is selected when `re.search(" " + strID, line)` finds the ID's text after any blank, and then `LL.index(strID)` looks for it as a whole field | with the default `firstIndex` 1, a two-line file whose second line reads `t id0` (another ID, then the queried ID with a trailing 0): that line is selected, no field equals the ID, and `LL.index` raises ValueError | select a line only when the ID is one of its fields after the first, so the lookup raises only when the file does not open | not executed | InfectionStatsBig.LongerIdRaises | InfectionStatsBig.IndexInFileByField |
| DataHandler.cpp:141-208 | `checkParamsIfWrong` never looks at the pathogen population or the species count, and main's `patho_sp % 4` test (main.cpp:176) lets 0 through | accepted parameters with `patho_sp` 0 (or a pathogen population of 0) reach `setPathoPopulationFourClades` (main.cpp:208), which computes `pop_size / numb_of_species` with a divisor of 0 | reject runs without a pathogen or a species, so the split has a positive divisor and the species sizes add up to the population | not executed | DataHandler.ZeroDivisorAccepted | DataHandler.AcceptedSizesSplit |
