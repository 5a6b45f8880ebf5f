# DeaDBeeF core structures, modelled and proved in Dafny

This project models the parts of the DeaDBeeF player that other code takes for granted, and proves what they
promise: the Fourier transform behind the spectrum display, the linked track lists, the interned metadata, the
memoised search, the binary playlist and tag formats together with the tag rewriter, the cuesheet parser, the
configuration store, and three small queues. `dafny verify dfyconfig.toml` checks everything.

Each component comes in two layers. A specification module holds pure functions (what a file of bytes means, what
an operation does to a list of entries) and the theorems about them. Beside it, classes and methods follow the C
code step by step, with the same loops, branches and constants, and are proved against those functions. Files are
byte sequences, every function that takes a lock is one atomic step, integers are unbounded unless a width
matters, where the wrap-around is written out (`ByteOrder.Sub32`, `% U32`, `Dbpl.Signed16`).

| files | component |
|---|---|
| Fft | the in-place radix-2 transform, over exact complex numbers |
| PlayItems, Playlists, MoveLaws, PlMove | track lists with links in both directions, moving tracks, moving playlists with their files |
| Metacache, MetaSpec, MetaLaws, PlMeta, MetaOps, MetaRuns | interned strings, multi-value metadata lists, runs of metadata operations |
| SearchList, TrackSearch, SearchLaws, TextLaws, SearchMeaning, SearchRuns | the list of search results; searching with verdicts remembered on shared strings, and when that changes nothing; what is found |
| BufferedWriter, Dbpl, DbplProofs, DbplSame, DbplCut, DbplVersions, DbplIo | the playlist format: writer, loader, round trip, files cut short, files of other versions |
| ByteOrder, Files, Id3v2, Id3v2Laws, Id3v2Bounds, Id3v2Io, Apev2, Apev2Laws, Apev2Io, RewriteSpec, RewriteLaws, Rewriter | tags as bytes: writers, locators, readers, the rewriter |
| CueSpec, CueSheets, CueParser | cutting files into tracks |
| ConfSpec, ConfFiles, ConfRuns, ConfStore | the sorted configuration list, its two files, and runs of changes and saves |
| MessageSpec, MessagePool | the message queue over a fixed pool |
| RingSpec, DecodedBlocks | the ring of decoded blocks |
| Selections | some elements of a list, in their order, for the modules above |

## What the code does not do

Several plain statements one would expect are false of the code. For each there is a condition that a caller can
check, proved for all inputs to be exactly the right one, and most have an input that fails beside it. One comment in the source is wrong
as well: the loader of the configuration says that new items are appended (src/conf.c:116), but they go to their
place in the sorted list.

- `plt_move_items` inside one playlist: `MoveLaws.MoveExact`. The result is what was asked for if and only if the
  requested tracks all lie on one side of the drop point, or the only one before it is the track just before it, or
  those behind it follow it directly and their number is a multiple of the number of those before it.
  `MoveLaws.StraddlingMoveFails` is the smallest failure.
- `plt_remove_item` and the search list: `Playlists.Playlist.SearchSurvives`. A well-formed search list remains if and
  only if the removed track was in it or it was empty. `SearchRuns.FoundTrackLost` removes a track that was not.
- A search from any search links: `TrackSearch.SearchProcess`. The tracks it finds are always linked in order between
  the ends of the list, with the right count. Other tracks lose their search links only where the reset comes to them,
  so the result is a well-formed list if and only if the others had none (`SearchList.CleanResult`).
  `SearchRuns.LeftTrack` is a run of two searches and a removal that leaves a track with a link into the result.
- `plt_remove_item` and links of other tracks: `Playlists.Playlist.RemoveItem`. If search links stay inside the
  playlist before a removal, they do so afterwards if and only if the track is free: only its own search neighbours
  refer to it, and an end of the search list only where it has no neighbour. Every track is free beside a well-formed
  search list (`Playlists.Playlist.ListedFree`). After the run of `LeftTrack`, `SearchRuns.LinkLeftDangling` removes one
  track and leaves a link to it; `SearchRuns.FoundNotCounted` removes the other, and the result counts nothing.
- Search verdicts are remembered on shared strings under a number that every playlist counts for itself, from 1 to 127
  and round again. A search asks whether strings contain a text. It finds what a search without memory finds, for every
  text, if and only if in every track no verdict of that number says yes and every string of a field with one is empty
  or contained in a string of a field without one (`TextLaws.SearchRightText`, for one track
  `TextLaws.TrackRightText`, for one field `TextLaws.AnswerRightText`). For all predicates on strings, not only those
  that ask for a text, the string itself must stand in a field without a verdict (`SearchLaws.SearchRight`,
  `SearchLaws.TrackRight`, `SearchLaws.AnswerRight`); `TextLaws.FooInFoobar` is a track between the two conditions.
  `SearchLaws.StaleVerdict` is a wrong result with two playlists, `SearchLaws.NumberComesRound` one with a single
  playlist and 128 searches.
- Looking up metadata by an interned key: `PlMeta.CachedExact`. The fast lookup finds the node the full scan finds if and
  only if that node has the very key, letter by letter, and the scan does not give up before: at a '!' node, or, for keys
  that do not start with ':', at a ':' node; or if there is no such node. `PlMeta.UriBehindBang` is a URI it misses.
- `pl_item_free` and the intern table: `MetaRuns.FreeLeaks`. The counts stay exact if and only if the track had no
  metadata. `MetaRuns.TitleLeaks` frees a track with a title.
- Playlist files: the loader leaves out values of 20000 bytes or more, which the writer puts down
  (`DbplSame.PlaylistRoundTrip`), and takes a track if and only if its decoder has fewer than 20 bytes and its keys fewer
  than 20000 (`DbplProofs.TrackBack`). In the metadata of the playlist a value of 32768 bytes or more sends the reader
  back (`DbplProofs.PairSeeksBack`). A file that ends inside a value that is left out still counts as whole if nothing
  follows in that track (`DbplCut.LastValueCut`).
- ID3v2 read-back: `Id3v2.RoundTripExact`. Everything comes back, and the reader stops right behind the tag, if and only
  if no frame but APIC is over the limit and every frame holds the bytes its flags announce. `Id3v2.ArtistLost` is a tag
  that loses a frame. Tags of version 2 lose their last frame unless a zero follows it (`Id3v2.OldTagExact`,
  `Id3v2.OldTitleLost`).
- The ID3v2 reader looks only at bytes of a tag that was written if and only if the tag does not end in a frame that
  announces a data length it does not hold, with every frame before it long enough for its flags
  (`Id3v2Bounds.WrittenInside`); `Id3v2Bounds.LengthPastTheEnd` is a tag of one frame that does. For any file
  `Id3v2Io.ReadFull` says whether it does.
- A frame that claims one byte more than the ID3v2 tag still has is passed over, one that claims more than the whole tag
  as well, and any in between spoils the tag (`Id3v2Laws.Oversized`).
- APEv2 read-back: `Apev2.ReadBackSize`, with `Apev2.AccentFails` for a key that is not ASCII.
- Rewriting with options that ignore APEv2 tags takes an APEv2 tag written before for audio: `RewriteSpec.AudioFound`,
  with `RewriteSpec.TagTakenForAudio` for a file of one byte.
- A file that consists of tags alone: `RewriteLaws.NothingBefore`. With nothing in front of it, an APEv2 tag or an ID3v1
  block is taken for audio, whatever the options say; `RewriteLaws.LoneBlockKept` is a block that is not stripped. With
  anything in front of them tags are replaced, stripped or kept as asked (`RewriteLaws.TagsReplaced`).
- Track lengths from cuesheets: `CueSheets.LengthsRight`. All lengths are right if and only if the parser takes the
  sheet and no PREGAP reaches beyond the INDEX of the next audio track or the end of its file; without PREGAP, if and
  only if no file has a single audio track whose INDEX lies past its end (`CueSheets.LengthsRightNoPregap`).
  `CueSheets.PastTheEnd` and `CueSheets.PregapTooLong` are the failing sheets.
- Cuesheets and files: `CueSpec.NullFile`. The parser follows a null pointer if and only if up to the first FILE there
  is an audio TRACK without INDEX 01, and a TRACK or the end of the sheet follows that FILE. `CueSpec.NullSheet` has
  three lines.
- Configuration files: `ConfRuns.ReloadAfterRun`. After any run of changes that fit the format, and saves, a last save
  and a new start give the store back if and only if something since the last write counts as a change or no key was
  deleted since. `ConfRuns.DeletionForgotten` deletes one key and saves. What fits the format: `ConfSpec.SavedAndLoaded`.
- `plt_move` and the numbered files: `PlMove.MoveKeepsStep`, with `PlMove.LeftOverTaken` for a temporary file left over.
- Growing the write buffer in memory: `BufferedWriter.AlwaysFits`. All sequences of chunks of at most n bytes fit,
  however full the buffer is, if and only if n is no larger than the buffer. `BufferedWriter.ChunkTooLarge` does not fit.
- `decoded_blocks_have_free` is right if and only if not all blocks are queued (`DecodedBlocks.Blocks.HaveFree`).
  `DecodedBlocks.FullRing` asks when all are.

## Model

| member | source | states |
|---|---|---|
| Fft.BitReverse | src/fft.c:54-66 | the shifting loop computes the recursively defined bit reversal |
| Fft.RevBijective | src/fft.c:54-66 | bit reversal of N slots has a two-sided inverse, so the load writes every slot once |
| Fft.Tables.constructor | src/fft.c:70-79 | the reversal table and the N/2 powers of the root, for any root whose N/2-th power is -1 |
| Fft.Tables.Group | src/fft.c:109-114 | the butterflies of one group fill its slots and leave all others alone |
| Fft.ReorderedAt | src/fft.c:128-132 | the reordering by halves puts sample n into the bit-reversed slot |
| Fft.Tables.Step | src/fft.c:103-115 | one pass of the two inner loops is one stage of butterflies on every block, all indices in bounds |
| Fft.StageDoublesBlocks | src/fft.c:95-120 | a stage turns transformed blocks into transformed blocks of twice the size |
| Fft.Tables.DoFft | src/fft.c:95-120 | the three nested loops compute the recursive transform of the whole array in place |
| Fft.FftRecIsDft | src/fft.c:95-132 | the recursive transform of the reordered signal is the discrete Fourier sum in every bin |
| Fft.Tables.Calculate | src/fft.c:122-132 | after loading and transforming, slot k holds the sum over n of x[n] * w^(n*k), for every k |
| Fft.BinsMirror | src/fft.c:134-136 | bins k and N - k of a real signal are conjugate, so the bins up to N/2 determine the others |
| Playlists.Playlist.InsertItem | src/playlist.c:1854-1915 | the track is in the list at the right place; both directions of links, ends, count and reference count are right; search links, whatever they are, and the ends of the search list stay as they were |
| Playlists.Playlist.RemoveItem | src/playlist.c:1691-1751 | the track is out of the main list and has no links left; whatever the search links were, its neighbours there are joined and ends and count follow; links that stayed inside the playlist still do if and only if the track was free; a well-formed search list that held it is cut correctly |
| Playlists.Playlist.SearchSurvives | src/playlist.c:1705-1728 | after a removal some well-formed search list remains if and only if the track was in it or it was empty |
| Playlists.Playlist.ListedFree | src/playlist.c:1705-1728 | beside a well-formed search list links stay inside the playlist and every track is free to be removed |
| Playlists.MoveWithin | src/playlist.c:3866-3883 | one hit inside a list moves that track to the drop point and changes nothing else, not even its reference count or its `added` mark |
| Playlists.MoveAcross | src/playlist.c:3866-3883 | one hit between lists takes the track out of one and puts it into the other at the drop point, with the mark that list gives to tracks being added |
| Playlists.MoveItemsWithin | src/playlist.c:3834-3892 | whatever the search links, the walk inside one list ends and leaves a well-formed list that is exactly the walk specification, with all reference counts and marks as before |
| Playlists.MoveItemsAcross | src/playlist.c:3834-3892 | between two lists, whatever the search links: the rest stays in order, the moved block stands in order before the drop track, reference counts stay |
| MoveLaws.WalkPermutes | src/playlist.c:3864-3884 | whatever is requested, moving inside a list is a permutation |
| MoveLaws.MoveExact | src/playlist.c:3834-3892 | moving inside a list gives the kept tracks with the block before the drop track if and only if the guard holds |
| MoveLaws.StraddlingMoveFails | src/playlist.c:3834-3892 | moving tracks 0 and 3 of four before track 2 moves track 2 instead of track 3 |
| PlMove.Playlists.Unlink | src/playlist.c:813-832 | the node at the position leaves the chain of playlists, the others keep their order |
| PlMove.Playlists.Link | src/playlist.c:886-904 | the node joins the chain at the position |
| PlMove.Playlists.CloseGap | src/playlist.c:834-852 | the files behind the one taken out move down by one, missing ones included |
| PlMove.Playlists.OpenGap | src/playlist.c:853-871 | the files from the target on move up by one |
| PlMove.Playlists.MoveFiles | src/playlist.c:788-884 | the renames permute the numbered files, missing files included |
| PlMove.Playlists.Move | src/playlist.c:768-909 | the playlist stands at its new position and the others keep their order; the files undergo the same permutation; requests out of range change nothing |
| PlMove.SourcePermutes | src/playlist.c:768-909 | where each position comes from and where each goes are inverse to each other |
| PlMove.MoveKeepsStep | src/playlist.c:768-909 | files stay with their playlists if and only if the moved one has a file or no temporary file was left over |
| PlMove.LeftOverTaken | src/playlist.c:788-884 | a playlist without a file takes over the temporary file that was left behind |
| Metacache.Table.GetHash | src/metacache.c:65-78 | the loop computes the 32-bit sdbm hash |
| Metacache.SdbmIs | src/metacache.c:65-78 | the hash is the number whose digits to the base 65599 are the signed chars, in 32 bits |
| Metacache.Table.FindInBucket | src/metacache.c:80-94 | finds the entry with these bytes if there is one anywhere in the table |
| Metacache.Table.AddValue | src/metacache.c:100-128 | one more reference to the one entry that holds the bytes; the table stays sound and counted |
| Metacache.Table.GetValue | src/metacache.c:193-208 | like adding, but never creates an entry |
| Metacache.Table.RemoveValue | src/metacache.c:135-163 | one reference less; the last one takes the entry out of the table |
| Metacache.Table.HandlesAreContents | src/metacache.c:80-128 | two live handles are equal exactly when their bytes are |
| MetaSpec.InsertKeepsOrder | src/plmeta.c:114-173 | inserting keeps plain keys first, keys different ignoring case, and plain keys lower-case |
| MetaSpec.RemoveKeepsOrder | src/plmeta.c:364-386 | so does removing |
| MetaSpec.OnlyPropsKeepsOrder | src/plmeta.c:485-520 | dropping the plain keys keeps the order and exactly the other keys |
| MetaSpec.StoredParts | src/plmeta.c:175-219 | a stored multi-value holds the non-empty strings of what was given |
| MetaSpec.CombinedParts | src/plmeta.c:244-281 | appending keeps every string there was, in place, and adds exactly the unknown ones |
| MetaLaws.SameKeyIs | src/plmeta.c:94-105 | keys are the same if they have the same bytes but for the case of letters |
| MetaLaws.StoredKeyIs | src/plmeta.c:114-173 | a key is stored in lower case unless it starts with a colon |
| MetaLaws.StoredIs | src/plmeta.c:175-219 | of several strings exactly the non-empty ones are stored, in order |
| MetaLaws.CombinedIs | src/plmeta.c:244-281 | appending puts exactly the strings that are not there yet behind those there are, in order |
| MetaLaws.AddLaw | src/plmeta.c:114-233 | adding does nothing for an empty string or a key that is there; else the node goes to the end, or, for a plain key, before the first property or else before the last node |
| MetaLaws.ReplaceLaw | src/plmeta.c:323-341 | replacing changes the value of the first node with the key, which keeps its spelling, and else adds one |
| MetaLaws.ReplaceTwice | src/plmeta.c:323-341 | replacing twice is replacing once with the second value |
| MetaLaws.AppendLaw | src/plmeta.c:286-316 | appending combines with the value of the first node with the key, and else adds one |
| MetaLaws.CopyLaw | src/plmeta.c:580-589 | copying does nothing for a key that is there, and else adds the value as it is |
| MetaLaws.DeleteLaw | src/plmeta.c:364-386 | deleting leaves exactly the nodes with other keys, in order |
| MetaLaws.DeleteAllLaw | src/plmeta.c:485-520 | deleting everything leaves exactly the properties but the four ReplayGain fields, in order |
| MetaLaws.RawIs | src/plmeta.c:423-427 | looking up finds the value of the first node with the key, and nothing if there is none |
| MetaLaws.FirstOfIs | src/playlist.c:4655-4667 | of several keys the first that is there decides |
| PlMeta.StripEmpty | src/plmeta.c:175-197 | the pointer loop keeps the non-empty strings in order |
| PlMeta.HasPart | src/plmeta.c:252-261 | the inner loop decides whether a string is among those of a value |
| PlMeta.CombineUnique | src/plmeta.c:244-281 | the nested loops build the combined multi-value; no buffer means nothing new |
| PlMeta.MetaForKey | src/plmeta.c:94-105 | the first node whose key is the same ignoring case |
| PlMeta.MetaForCachedKey | src/plmeta.c:68-91 | the pointer comparison that stops at the first special key |
| PlMeta.CachedLookupAgrees | src/plmeta.c:68-105 | the pointer-comparing, early-stopping lookup of an interned lower-case plain key returns the node the full scan returns |
| PlMeta.CachedExact | src/plmeta.c:68-91 | for any interned key: exactly when that lookup finds the node the full scan finds |
| PlMeta.UriBehindBang | src/plmeta.c:76-84 | a URI behind a node whose key starts with an exclamation mark is missed |
| MetaOps.FindSlot | src/plmeta.c:114-160 | refuses exactly the keys that are taken, otherwise finds the place that keeps the order |
| MetaOps.AddEmptyMetaForKey | src/plmeta.c:114-173 | links in one node with the stored form of the key and one reference more |
| MetaOps.SetValue | src/plmeta.c:199-219 | the node gets the stored form of the value, with one reference more |
| MetaOps.AddMeta | src/plmeta.c:235-242 | the same for a single string |
| MetaOps.AddMetaFull | src/plmeta.c:199-233 | adds a multi-value unless the key is taken; references in the table change exactly as those of the track |
| MetaOps.AppendMetaFull | src/plmeta.c:286-316 | appends unknown strings to an existing value or adds a new one, references exact |
| MetaOps.ReplaceMeta | src/plmeta.c:323-341 | replaces the value of a key or adds it, references exact |
| MetaOps.DeleteMeta | src/plmeta.c:364-386 | deletes the key ignoring case, references exact |
| MetaOps.DeleteAllMeta | src/plmeta.c:485-520 | deletes the plain keys and the listed properties, references exact |
| MetaOps.AddMetaCopy | src/plmeta.c:580-589 | copies one node of another track, references exact |
| MetaRuns.Perform | src/plmeta.c:286-386 | one operation on one of many tracks changes that track as specified and no other, and keeps the library invariant |
| MetaRuns.Run | src/plmeta.c:107-589 | so does any run of operations over any number of tracks |
| MetaRuns.TableIsUse | src/metacache.c:40-163 | a string is in the table exactly when some node refers to it, in the bucket of its hash, counted once per reference; live handles are equal exactly when their bytes are |
| MetaRuns.ItemFree | src/playlist.c:1961-1975 | freeing a track releases its values and keeps the references of its keys |
| MetaRuns.FreeLeaks | src/playlist.c:1961-1975 | the table counts exactly the remaining tracks if and only if the freed track had no metadata |
| MetaRuns.TitleLeaks | src/playlist.c:1961-1975 | after the only track, which had a title, is freed the table still holds a string |
| MetaRuns.FindMetaRaw | src/plmeta.c:423-427 | the handle returned is the interned value of the key, or null |
| MetaRuns.SameFirst | src/playlist.c:4655-4667 | the loop over the artist keys compares the first known one of each track as strings |
| MetaRuns.ItemsFromSameAlbum | src/playlist.c:4650-4668 | comparing pointers decides whether album and first known artist field are equal as strings |
| TrackSearch.FieldVerdict | src/playlist.c:4041-4077 | for any verdict a string carries: it decides if it has the number of this search, otherwise the field is searched and the verdict stored |
| TrackSearch.TrackHit | src/playlist.c:4032-4078 | the loop over the fields stops at the first that answers yes; result and verdicts, for any verdicts the strings carry |
| SearchList.ResetSearch | src/playlist.c:3955-3970 | from any search links the walk ends; exactly the tracks it comes to lose their search links, the ends and the count are cleared |
| SearchList.InsideWalkable | src/playlist.c:3955-3970 | that walk can follow any links that stay inside the playlist |
| SearchList.AppendResult | src/playlist.c:3977-3992 | the results grow by the track, linked behind the last one and counted, whatever search links it and other tracks have |
| SearchList.KeepResult | src/playlist.c:3977-3992 | during a search nothing else changes: other tracks have no search links where the reset came to and the old ones elsewhere |
| SearchList.CleanResult | src/playlist.c:3955-3992 | the results are a well-formed search list if and only if no track that is neither a result nor reached by the reset had search links before |
| SearchList.CleanBefore | src/playlist.c:3955-3970 | there is no such track if there was a well-formed search list before |
| TrackSearch.AfterLastSlash | src/playlist.c:4044-4052 | in the first string of a URI no slash stands behind the position, and one right in front of it unless that is the beginning |
| TrackSearch.AnyStringHits | src/playlist.c:4063-4072 | the loop over the strings of a value finds a match if one of them matches |
| TrackSearch.VisitTrack | src/playlist.c:4026-4079 | one round of the search extends the linked results by the track if and only if the walk over its fields answers yes |
| SearchList.ForgetResults | src/playlist.c:3994-3997 | a search starts with no results, from any search links |
| TrackSearch.NextNumber | src/playlist.c:4021-4024 | searches are numbered from 1 to 127 and round again |
| TrackSearch.SearchTracks | src/playlist.c:4026-4081 | the loop over the tracks comes to the results of the specification, in order |
| TrackSearch.SearchProcess | src/playlist.c:3994-4082 | from any search links and any verdicts: which tracks are linked as results, in order and with the right count, which verdicts strings carry afterwards, what search links other tracks have, and exactly when the result is a well-formed search list |
| SearchRuns.FoundTrackLost | src/playlist.c:1705-1728 | removing a track that was not found wipes out the ends of the search list and leaves its count at one |
| SearchRuns.LeftTrack | src/playlist.c:3955-4082 | a search finds two of three tracks, the third is removed, a search finds the second: the first still links to it |
| SearchRuns.FoundNotCounted | src/playlist.c:1705-1728 | removing the first track then leaves the second as result, with a count of zero |
| SearchRuns.LinkLeftDangling | src/playlist.c:1705-1728 | removing the second track instead leaves a link to it on the first |
| SearchLaws.AnswerRight | src/playlist.c:4054-4061 | a field is answered rightly for every predicate on strings if and only if its string carries no verdict with the number of this search |
| SearchLaws.TrackRight | src/playlist.c:4032-4078 | so is a track, if and only if no verdict of this number says yes and every string of a field with one also stands in a field without |
| SearchLaws.SearchRight | src/playlist.c:3994-4082 | a search finds what a search without memory finds, for every predicate on strings, if and only if that holds of every track |
| TextLaws.AnswerRightText | src/playlist.c:4054-4072 | a field is answered rightly for every text that strings may contain if and only if its string carries no verdict of this number, or a no and only empty strings |
| TextLaws.TrackRightText | src/playlist.c:4032-4078 | so is a track, if and only if no verdict of this number says yes and every string with one is empty or contained in a string of a field without |
| TextLaws.SearchRightText | src/playlist.c:3994-4082 | a search finds what a search without memory finds, for every text, if and only if that holds of every track |
| TextLaws.FooInFoobar | src/playlist.c:4054-4072 | a no on the title "foo" is harmless for texts beside the album "foobar", but not for all predicates |
| SearchMeaning.SearchedIs | src/playlist.c:4032-4041 | the fields looked at are those before the first whose key starts with a colon, underscore or exclamation mark, the URI excepted, but not "cuesheet" and "log" in letters of either case |
| SearchMeaning.FieldHoldsIs | src/playlist.c:4044-4072 | a field matches if and only if one of its zero-terminated strings contains the text, of the first string of a URI only what follows its last slash |
| SearchMeaning.FoundByFileName | src/playlist.c:4044-4072 | a track whose only field looked at is the URI dir/name is found if and only if name contains the text |
| SearchMeaning.FoundHolds | src/playlist.c:4026-4081 | a search without memory finds exactly the tracks with such a field, in the order of the list |
| SearchMeaning.FreshSearch | src/playlist.c:3994-4082 | so does a search whose number no string carries yet; without a text it finds nothing and leaves all strings alone |
| SearchMeaning.FreshVerdicts | src/playlist.c:4054-4077 | after it exactly the strings it came to carry its number, with the sign that says whether they hold the text |
| SearchLaws.NoVerdictsYet | src/playlist.c:4021-4061 | when no string carries the new number, that holds of every track |
| SearchLaws.VerdictsRight | src/playlist.c:4021-4078 | with right verdicts of this number the result is right, and right verdicts are what the search leaves |
| SearchLaws.StaleVerdict | src/playlist.c:4021-4061 | the first search in a second playlist misses a track because of the first search in another |
| SearchLaws.NumberComesRound | src/playlist.c:4021-4061 | in one playlist search number 128 finds a track that does not match |
| BufferedWriter.Writer.Write | src/buffered_file_writer.c:50-78 | file plus buffer grow by exactly the bytes; in memory a chunk that fits after one doubling always succeeds |
| BufferedWriter.Writer.Flush | src/buffered_file_writer.c:80-91 | moves the buffer to the file without changing what is written altogether |
| BufferedWriter.Writer.Double | src/buffered_file_writer.c:68-71 | doubles the room and keeps what is buffered |
| BufferedWriter.Writer.WriteAll | src/buffered_file_writer.c:50-78 | any sequence of writes that fit adds up to their concatenation; on failure the file holds a prefix of it |
| BufferedWriter.OneDoublingSuffices | src/buffered_file_writer.c:67-72 | one doubling always makes room if and only if the chunk is no larger than the buffer |
| BufferedWriter.AlwaysFits | src/buffered_file_writer.c:67-75 | every sequence of chunks of at most n bytes fits, from any fill level on, if and only if n is no larger than the buffer |
| BufferedWriter.ChunkTooLarge | src/buffered_file_writer.c:67-75 | a full buffer of four bytes has no room for five more |
| Dbpl.AtollBack | src/playlist.c:2676-2681 | reading a printed decimal gives the number back |
| DbplProofs.TrackBack | src/playlist.c:2522-2698 | from the bytes of a saved track, with values of any length, the loader restores that track without the values of 20000 bytes or more and stops right after it, or fails if the decoder or a key is too long |
| DbplProofs.EntriesBack | src/playlist.c:2644-2698 | of saved entries exactly those with values of fewer than 20000 bytes are applied, in order, and the reader stops right behind the last |
| DbplVersions.TakenPicks | src/playlist.c:2663-2672 | those are the entries with fewer than 20000 bytes before the last zero of their value, in order |
| DbplProofs.LoadSaved | src/playlist.c:2479-2755 | loading a saved playlist restores each track in order and the playlist metadata, or the tracks before the first that the loader does not take |
| DbplProofs.PairSeeksBack | src/playlist.c:2719-2736 | a value of 32768 bytes or more in the playlist metadata sends the reader back |
| DbplSame.TrackSame | src/playlist.c:2559-2698 | a restored track has the same flags, duration and samples, every key that is not reserved with the same bytes if its value is short enough, no reserved key, and exactly those plain keys, in the same order |
| DbplSame.PlaylistRoundTrip | src/playlist.c:2087-2755 | saving and loading into an empty playlist gives the same tracks in the same order and the same playlist metadata, but for values of 20000 bytes or more |
| DbplCut.CutShort | src/playlist.c:2479-2755 | of a saved playlist cut short anywhere exactly the tracks and pairs that lie in it as a whole come back, in order; success is reported for the whole file and for one that ends with its tracks |
| DbplCut.LastValueCut | src/playlist.c:2663-2665 | a file that ends inside a value that is left out still loads as the whole track |
| DbplVersions.HeadTaken | src/playlist.c:2489-2510 | the ten bytes in front that the loader takes: DBPL, major version 1, a minor version from 1 on, a count |
| DbplVersions.WrongHead | src/playlist.c:2489-2510 | of any other file nothing is loaded |
| DbplVersions.VersionBack | src/playlist.c:2522-2643 | a track in a file of any minor version: the fields that version has, byte by byte, and exactly the metadata derived from them, in order |
| DbplVersions.HalfIs | src/playlist.c:2112-2128 | a length in two bytes, the lower first |
| DbplVersions.KeyTwice | src/playlist.c:2673-2697 | of two pairs with the same key the first counts, or the second if the key starts with a colon |
| DbplVersions.PairTwice | src/pltmeta.c:38-66 | of two pairs of playlist metadata with the same key the first counts |
| DbplIo.PutMeta | src/playlist.c:2192-2227 | counts, then writes, the metadata except reserved names |
| DbplIo.PutTrack | src/playlist.c:2112-2227 | one track: names, samples, gains, flags, metadata |
| DbplIo.PutTracks | src/playlist.c:2112-2228 | all tracks in order |
| DbplIo.PutPairs | src/playlist.c:2231-2260 | the playlist metadata |
| DbplIo.SavePlaylist | src/playlist.c:2087-2271 | writes exactly the bytes of the format, and in memory never fails |
| DbplIo.SaveToBuffer | src/playlist.c:2274-2299 | the buffer holds exactly those bytes |
| DbplIo.ReadTracks | src/playlist.c:2522-2705 | the loop over the tracks of any bytes; those read before a failure stay |
| DbplIo.ReadTrack | src/playlist.c:2523-2698 | one track of any bytes, with every way to fail |
| DbplIo.ReadMeta | src/playlist.c:2644-2698 | the loop over its metadata, with limits and skipping |
| DbplIo.ReadPairs | src/playlist.c:2707-2744 | the playlist metadata, which may be missing; pairs read before a failure stay |
| DbplIo.LoadFromBuffer | src/playlist.c:2479-2880 | what is reported for any bytes, and what is in the playlist afterwards |
| Id3v2Io.WriteTag | src/junklib.c:3385-3584 | writes header and frames, for major versions 3 and 4 only |
| Id3v2Io.TagSize | src/junklib.c:3513-3524 | the size in the header as a 32-bit word |
| Id3v2Io.WriteFrames | src/junklib.c:3537-3575 | one frame after the other, with plain or syncsafe sizes |
| Id3v2Io.SkipData | src/junklib.c:4453-4523 | how far the read pointer moves, with sizes counted down in 32-bit arithmetic, and whether a data length lies in the tag |
| Id3v2Io.ReadFrameAt | src/junklib.c:4357-4602 | one round of the reader for versions 2 to 4: stop, fail, drop or store |
| Id3v2Io.ReadLoop | src/junklib.c:4357-4606 | the frame loop on any bytes, and where the read pointer ends up |
| Id3v2Io.ReadFull | src/junklib.c:4282-4621 | what the reader makes of any file without the unsynchronisation scheme, and exactly when it looks only at bytes of the tag |
| Id3v2Bounds.WrittenInside | src/junklib.c:4357-4523 | reading a written tag stays inside it if and only if no data length is missing at its end |
| Id3v2Bounds.LengthPastTheEnd | src/junklib.c:4357-4523 | an empty title whose flags announce a data length makes the reader look past the tag |
| Id3v2Io.FindTag | src/junklib.c:1855-1886 | where a tag is found and how large it is |
| Id3v2.ReadBack | src/junklib.c:4282-4621 | from the first byte of written frames the reader finds exactly those that survive its limits, in order, and where it stops |
| Id3v2.RoundTrip | src/junklib.c:3486-4621 | a written tag, whatever follows it, reads back as its surviving frames; sections 3.1, 4 and 6.2 of the ID3v2.4.0 structure document |
| Id3v2.RoundTripExact | src/junklib.c:3486-4621 | it reads back whole, and the read pointer ends right behind it, if and only if no frame but APIC is over the limit and each holds the bytes its flags announce |
| Id3v2.ArtistLost | src/junklib.c:4453-4523 | a frame of one byte that announces four sends the read pointer past the tag, and the next frame is lost |
| Id3v2.OldFramesBack | src/junklib.c:4531-4602 | frames in the layout of version 2 are read back in order, without the last one if no padding follows it |
| Id3v2.OldTagExact | src/junklib.c:4282-4621 | a tag of version 2 is read whole if and only if no frame but PIC is over the limit and a zero follows the last frame |
| Id3v2.OldTitleLost | src/junklib.c:4282-4621 | a tag of version 2 with one title and no padding is read as empty |
| Id3v2.FindsWritten | src/junklib.c:1855-1886 | the locator finds exactly the bytes of a written tag |
| Id3v2Laws.NamedBack | src/junklib.c:4357-4606 | of frames with any names the survivors are read under the names the reader gives them, up to the padding |
| Id3v2Laws.FrameIdIs | src/junklib.c:4369-4381 | a name of four letters stays; one of three and a zero is replaced if the reader knows it |
| Id3v2Laws.TagBack | src/junklib.c:4282-4621 | any tag of version 3 or 4, with or without an extended header and padding, whatever follows it, is read as its surviving frames |
| Id3v2Laws.NothingLost | src/junklib.c:4402-4523 | all frames survive if and only if those but APIC have at most 100000 bytes and all have the bytes their flags announce |
| Id3v2Laws.ExtraIs | src/junklib.c:4456-4520 | how many bytes the flags of a frame announce, bit by bit |
| Id3v2Laws.Oversized | src/junklib.c:4395-4423 | what a frame does that claims more bytes than the tag still has |
| Id3v2Laws.Refused | src/junklib.c:4292-4342 | the headers the reader refuses, and tags cut short |
| Id3v2Laws.TagIs | src/junklib.c:3385-3584 | a written tag byte by byte: "ID3", version, flags, size, frames |
| Id3v2Laws.FramesAre | src/junklib.c:3537-3575 | a written frame byte by byte: name, size, flags, data |
| Id3v2Laws.SizeIs | src/junklib.c:3537-3575 | a size in four bytes, or in four times seven bits, the highest first |
| Id3v2Laws.HeaderFlagsIs | src/junklib.c:3486-3524 | the flags in a written header are all there were but those for an extended header and a footer |
| Apev2Io.WriteTag | src/junklib.c:3182-3382 | header if asked for, items in order, footer if asked for |
| Apev2Io.WriteLe32 | src/junklib.c:3168-3179 | a word, lowest byte first |
| Apev2Io.WriteMarker | src/junklib.c:3299-3326 | the 32 bytes of a header or footer |
| Apev2Io.WriteItems | src/junklib.c:3328-3349 | the items in order |
| Apev2Io.SizeAndCount | src/junklib.c:3284-3382 | the size and count that the header and footer carry, as 32-bit words |
| Apev2Io.FindTag | src/junklib.c:1481-1526 | where the tag before the end of the file, or before a block of 128 bytes, starts, and its size |
| Apev2Io.ReadFooter | src/junklib.c:1482-1501 | the footer candidate at the end or 128 bytes before it |
| Apev2Io.ScanKey | src/junklib.c:1796-1811 | reading a key byte by byte up to its zero |
| Apev2Io.ReadItemAt | src/junklib.c:1788-1838 | one item: fail, skip or store |
| Apev2Io.ReadFull | src/junklib.c:1733-1842 | what the reader makes of any file |
| Apev2.KeyBack | src/junklib.c:1796-1811 | scanning a key gives it back if it is printable ASCII, and fails otherwise |
| Apev2.ItemsBack | src/junklib.c:1787-1839 | from the first byte of written items the reader finds what the specification says comes back |
| Apev2.ReadBackSize | src/junklib.c:1796-1838 | all items come back if and only if every key is printable ASCII and every value within the limit |
| Apev2.AccentFails | src/junklib.c:1796-1811 | a tag with one accented letter as key is located, and reading it fails |
| Apev2.FoundAndRead | src/junklib.c:1481-1842 | a tag with a footer, at the end of any file or before an ID3v1 block, is located at its first byte and read back |
| Apev2Laws.TagIs | src/junklib.c:3182-3382 | a written tag byte by byte: header and footer with "APETAGEX", version 2000, size, count, flags and eight zeros |
| Apev2Laws.WordIs | src/junklib.c:3168-3179 | a word in four bytes, the lowest first |
| Apev2Laws.ItemsIs | src/junklib.c:3328-3349 | a written item byte by byte: size, flags, key, zero, data |
| Apev2Laws.AllBack | src/junklib.c:1796-1838 | all items come back if and only if every key byte is from 32 to 127 and no value has more than 16 MiB |
| Apev2Laws.ItemCut | src/junklib.c:1788-1838 | an item cut short anywhere makes reading fail, unless its key is there and its value is over the limit |
| Apev2Laws.LongKey | src/junklib.c:1796-1831 | of 256 bytes without a zero 255 become the key, and the value starts behind all 256 |
| Rewriter.Locate | src/junklib.c:4718-4753 | beginning and end of the audio, and the block behind it |
| Rewriter.FindBlock | src/junklib.c:1456-1468 | where the ID3v1 block starts, or -1 |
| Rewriter.CopyAudio | src/junklib.c:5046-5069 | the chunked copy writes the bytes between them unchanged |
| Rewriter.WriteBack | src/junklib.c:5071-5221 | the tags behind the audio |
| Rewriter.RewriteTags | src/junklib.c:4687-5221 | for any file and any options: in front and behind stands the new tag where one is written, nothing where one is only stripped, and else the old tag; between them the audio; fails exactly when a tag to keep claims more bytes than the file has |
| RewriteSpec.FoundAgain | src/junklib.c:4718-5221 | the three locators find the same boundaries in the rewritten file, for any second options that agree on whether APEv2 tags matter |
| RewriteSpec.AudioKept | src/junklib.c:4718-5221 | the audio found with such options in the rewritten file is the audio of the original |
| RewriteSpec.AudioFound | src/junklib.c:4718-5221 | after an APEv2 tag was written, exactly the options that strip or write one find the same audio; to others it ends with the tag |
| RewriteSpec.TagTakenForAudio | src/junklib.c:4718-5221 | one byte of audio rewritten with an empty APEv2 tag is 33 bytes of audio to options that ignore the tag |
| RewriteSpec.RewriteTwice | src/junklib.c:4718-5221 | rewriting again with the same options and tags changes nothing |
| RewriteLaws.FrontExact | src/junklib.c:1855-1886 | in any file a tag in front is found if and only if its header is there; its length counts a footer that the flags announce |
| RewriteLaws.BlockExact | src/junklib.c:1456-1468 | in any file an ID3v1 block is found if and only if "TAG" stands 128 bytes before the end |
| RewriteLaws.ApeExact | src/junklib.c:1481-1526 | in any file an APEv2 tag is found if and only if a footer ends with the file, or else 128 bytes before, and the tag does not start before the file |
| RewriteLaws.TagsReplaced | src/junklib.c:4687-5221 | of a file put together from tags and audio each tag is replaced if one is written, else removed if it is to be stripped, else kept; the audio is kept |
| RewriteLaws.NothingBefore | src/junklib.c:4725-4753 | with nothing in front of it an APEv2 tag or a block is taken for audio, whatever the options |
| RewriteLaws.LoneBlockKept | src/junklib.c:4736-4750 | a file that is one block keeps it although it is to be stripped |
| RewriteLaws.StrippedGone | src/junklib.c:4718-5221 | where a tag is stripped and not replaced none is found any more, if nothing else looks like one |
| CueParser.Parser.SetLastItemRegion | src/cueutil.c:467-475 | the track being cut ends with the file; success means that it starts inside it |
| CueParser.Parser.ProcessCueTrack | src/cueutil.c:719-772 | cuts one track and ends the one before it one sample earlier |
| CueParser.Parser.LoadNextFile | src/cueutil.c:556-717 | the next file, or the end of the parse |
| CueParser.Parser.NextFile | src/cueutil.c:866-879 | the file that was open is complete and the next one is entered, or the parse ends |
| CueParser.Parser.SwitchFile | src/cueutil.c:858-879 | what the line after FILE does, with FILE before TRACK and between TRACK and INDEX |
| CueParser.Parser.HandleField | src/cueutil.c:881-926 | what each line does otherwise |
| CueParser.Parser.Round | src/cueutil.c:844-932 | one round keeps the invariant and is one step of the specification |
| CueParser.Parser.MainLoop | src/cueutil.c:844-932 | the loop over the lines and one round more refines the run of the specification |
| CueParser.TotalTracksAndFiles | src/cueutil.c:228-249 | the counts of FILE and TRACK lines |
| CueParser.LoadCuesheet | src/cueutil.c:779-953 | the tracks cut are exactly the regions of the specification, and the call fails exactly when it does |
| CueSpec.RunEnds | src/cueutil.c:844-921 | the last round always ends the parse |
| CueSpec.SamplesNear | src/cueutil.c:742-891 | a time in samples is within one sample of time times rate, toward zero |
| CueSpec.ParseTiles | src/cueutil.c:719-932 | every successful parse cuts each file into regions that end one sample before the next index, rise, and end with the file |
| CueSpec.TilesCover | src/cueutil.c:467-772 | such regions without PREGAP hold every sample from the first track on exactly once |
| CueSpec.ParseCovers | src/cueutil.c:719-932 | so a successful parse without PREGAP covers each file from its first track to its last sample without overlap |
| CueSpec.OnlyLoneTracks | src/cueutil.c:719-772 | in any successful parse without PREGAP only a file with a single track can have a wrong length |
| CueSpec.NullFile | src/cueutil.c:719-932 | the parser follows a null pointer if and only if an audio TRACK, FILE, and TRACK or the end come in that order before any INDEX 01, in a sheet that is not refused for its number of files |
| CueSpec.NullSheet | src/cueutil.c:719-932 | the sheet TRACK, FILE, TRACK makes it follow a null pointer |
| CueSheets.SheetParses | src/cueutil.c:779-932 | a sheet written for given files, audio and data tracks, times and PREGAPs, in either layout for each file, parses to exactly the regions of the audio tracks, each up to the next audio track or the end of its file, or fails exactly when the checks on starts say so |
| CueSheets.MissingFile | src/cueutil.c:844-880 | when a file cannot be loaded, exactly the tracks of the files before it come back, unless one of those begins past the end of its file |
| CueSheets.DataTrackLeftOut | src/cueutil.c:907-912 | a data track before an audio track: only the audio track comes out, as the first of its file |
| CueSheets.LengthsRight | src/cueutil.c:719-932 | such a sheet is parsed with all lengths right if and only if those checks pass and no PREGAP reaches beyond the INDEX of the next audio track or the end of its file |
| CueSheets.LengthsRightNoPregap | src/cueutil.c:719-932 | without PREGAP: if and only if the checks pass and no file has a single audio track whose INDEX lies past its end |
| CueSheets.PastTheEnd | src/cueutil.c:842-932 | a lone track past the end of a file that another FILE closes is accepted with a negative length |
| CueSheets.PregapTooLong | src/cueutil.c:736-742 | a PREGAP longer than its track is accepted with a negative length |
| ConfStore.Conf.GetStrFast | src/conf.c:301-309 | finds the value of a key ignoring case |
| ConfStore.Conf.SetStr | src/conf.c:365-418 | the item that has the key ignoring case gets the value and keeps its spelling, or is dropped; a new key goes to its place in the order; when that counts as a change |
| ConfStore.Conf.RemoveItems | src/conf.c:440-468 | removing one contiguous run deletes every key with the prefix and no other |
| ConfStore.Conf.LoadLine | src/conf.c:83-119 | one line of the buffer: an item, or nothing |
| ConfStore.ReadLine | src/conf.c:91-117 | key and value of a line, if it has both |
| ConfStore.Conf.LoadBuffer | src/conf.c:78-120 | what loading makes of any buffer that ends with a zero |
| ConfStore.SaveWithSecrets | src/conf.c:204-262 | writes one line per item of the ordinary or of the secret half |
| ConfStore.Conf.LoadFiles | src/conf.c:162-179 | both files are loaded, one after the other, and nothing counts as changed |
| ConfStore.Conf.SavePart | src/conf.c:181-262 | one file gets its half of the list, if something changed and the disk takes it; otherwise it stays |
| ConfStore.Conf.Save | src/conf.c:264-285 | after a save that wrote both files, `secrets` consists of the lines of exactly the items whose key contains ".secret.", and `config` of the lines of all others, in order; the changed flag is gone even if one could not be written |
| ConfStore.Conf.Run | src/conf.c:264-468 | any run of changes and saves does what the specification says while every save can write |
| ConfStore.SaveItem | src/conf.c:220-231 | one line |
| ConfSpec.SetKeepsOrder | src/conf.c:365-418 | setting and deleting keep the list strictly sorted ignoring case |
| ConfSpec.SetHere | src/conf.c:365-418 | a key holds what was set |
| ConfSpec.SetElsewhere | src/conf.c:365-418 | every other key holds what it held |
| ConfSpec.OneRun | src/conf.c:440-468 | in a sorted list the matches of a prefix form one run |
| ConfSpec.LookupWithout | src/conf.c:440-468 | after a removal exactly the keys with the prefix are gone |
| ConfSpec.RunRepresents | src/conf.c:301-468 | through any run of sets, deletes and removals the list is strictly sorted and behaves as a case-insensitive map |
| ConfSpec.LoadedIsGood | src/conf.c:78-120 | whatever a file holds, everything loaded can be saved |
| ConfSpec.SavedAndLoaded | src/conf.c:78-262 | writing both files and loading them into an empty store gives the store back if and only if the format can hold every item |
| ConfFiles.FileWritten | src/conf.c:213-231 | a file holds the lines of exactly the items whose key contains ".secret.", or of exactly the others, in order |
| ConfFiles.LoadedAlone | src/conf.c:78-262 | loaded alone, it gives back exactly those items |
| ConfFiles.LineSkipped | src/conf.c:91-103 | comments, lines that start with a blank and lines without a blank are skipped |
| ConfFiles.LineSets | src/conf.c:97-118 | any other line sets the key before its first blank to what stands behind the blanks |
| ConfFiles.EmptyLine | src/conf.c:78-95 | an empty line is skipped, but a zero at the start of a line ends the file |
| ConfFiles.LessIs | src/conf.c:369-397 | in the order of keys the first byte that differs decides, or else the length |
| ConfFiles.SetChanges | src/conf.c:365-418 | what setting a key does to the list, place by place |
| ConfRuns.SaveAndReload | src/conf.c:78-285 | saving and starting again gives the store back if and only if something counts as a change or no key was deleted since the last write, and the format can hold every item |
| ConfRuns.ReloadAfterRun | src/conf.c:78-468 | from any two files, after any run of changes that fit the format and saves, a last save and a new start give the store back if and only if something counts as a change or no key was deleted since the last write |
| ConfRuns.DeletionForgotten | src/conf.c:199-202 | loading "a 1", deleting the key and saving: the key is there again at the next start |
| MessagePool.Handler.constructor | src/handler.c:65-75 | a queue over any number of nodes starts valid and empty |
| MessagePool.Handler.Reset | src/handler.c:53-63 | every node is on the free list |
| MessagePool.Handler.MoveToQueue | src/handler.c:96-106 | the first free node becomes the last of the queue |
| MessagePool.Handler.MoveToFree | src/handler.c:134-140 | the first node of the queue becomes free |
| MessagePool.Handler.Push | src/handler.c:87-115 | adds the message at the end, or refuses exactly when the whole pool is queued; both lists stay acyclic, disjoint, and cover the pool |
| MessagePool.Handler.Pop | src/handler.c:123-143 | takes the oldest message with all its fields, or none exactly when the queue is empty |
| MessagePool.Handler.PushOrFree | src/messagepump.c:99-128 | the same push, and the event of a refused message is freed |
| MessagePool.Handler.Run | src/messagepump.c:87-156 | any interleaving of pushes and pops answers as the specification does, and each event queued at the start or pushed is handed out, still queued, or freed, once |
| MessageSpec.FirstInFirstOut | src/messagepump.c:99-156 | what pops returned, then what is queued, is what was accepted, in push order |
| MessageSpec.RefusedWhenFull | src/messagepump.c:99-156 | a push is refused exactly when accepted pushes outnumber pops by the whole pool, a pop fails exactly when they are even |
| MessageSpec.EventsConserved | src/messagepump.c:99-128 | every event queued at the start or pushed is handed out, still queued, or freed with its refused push, once |
| DecodedBlocks.Blocks.constructor | src/decodedblock.c:35-43 | any positive number of blank blocks |
| DecodedBlocks.Block.Release | src/decodedblock.c:59-72 | the block is blank again and keeps its place in the list |
| DecodedBlocks.Blocks.Reset | src/decodedblock.c:74-85 | every block is blank and none is queued |
| DecodedBlocks.Blocks.Current | src/decodedblock.c:87-90 | the oldest queued block, or null |
| DecodedBlocks.Blocks.Next | src/decodedblock.c:92-106 | releases the oldest block; the others stay queued in order, round the end of the list |
| DecodedBlocks.Blocks.Append | src/decodedblock.c:108-128 | queues a blank block at the end, or fails exactly when every block is queued |
| DecodedBlocks.Blocks.HaveFree | src/decodedblock.c:130-133 | always yes, which is right if and only if not all blocks are queued |
| DecodedBlocks.FullRing | src/decodedblock.c:108-133 | one block, queued: the answer is yes and appending fails |
| DecodedBlocks.Blocks.PlaybackTimeTotal | src/decodedblock.c:135-162 | ends, with the sum over exactly the queued run, even when the ring is full |
| RingSpec.LeaveInOrder | src/decodedblock.c:74-128 | through any run of calls blocks leave in the order they were appended |

## Left out

- Fft: sizes that are not a power of two, rounding, the Hamming window values, the magnitude output and the DC bin that is not reported; `fft_free` keeps the old size, so the tables are taken as built for the current one.
- Fft.Tables.constructor: the root is a parameter, since e^(2*pi*i/N) is not a Dafny real; the theorems need only its N/2-th power, and for BinsMirror that it lies on the unit circle.
- Playlists.Playlist.InsertItem: null tracks, shuffle ratings, total time, selection and streamer notifications, undo records; `plt_add2` and `plt_remove` with their file handling.
- Playlists.Playlist.RemoveItem: total and selected time, and search links that lead to freed memory: links and ends lead to tracks of some set of tracks that exist (`all`).
- Playlists.MoveItemsWithin: the main list only; moving along the search list is left out, and of search links it only says that they still lead to existing tracks, because each removal of a track outside the search list loses its ends (SearchSurvives). The same holds for Playlists.MoveItemsAcross.
- PlMove.Playlists.Move: failing renames, paths that do not fit the path buffer, negative positions, and the configuration keys written afterwards.
- Metacache: the deprecated `metacache_ref` and `metacache_unref`, which bypass the table; wrap-around of the 32-bit reference count.
- MetaOps.DeleteAllMeta: the flags it resets at the end.
- MetaOps: `pl_set_meta_int` and its siblings, which format a number and replace; override keys.
- SearchList.ResetSearch: a walk along links into freed memory; Walkable says that it stays among existing tracks.
- TrackSearch.SearchProcess: the result is stated for any predicate on strings; the selection of results is left out.
- TextLaws.SearchRightText: lower case and the validity of UTF-8 are an abstract function on strings, and a text has any length, while the program cuts it at 999 bytes.
- SearchLaws.SearchRight: takes it that no string serves as a URI in one field and not in another, and so do SearchMeaning.FreshSearch and FreshVerdicts.
- Dbpl: relative paths, which the buffer loader never resolves; formatting of durations, gains and flag texts is an abstract environment; a machine with the lowest byte first; tracks without `:URI`, which the writer does not expect.
- DbplSame.PlaylistRoundTrip: does not state the order of the keys that start with ':', since the loader puts derived keys among them.
- DbplCut.CutShort: bytes that are lost from the end only, and not in the middle of a value that is left out, unless that is the last of its track (LastValueCut).
- DbplVersions.VersionBack: tracks without metadata pairs; pairs are the same in every version (DbplProofs.EntriesBack).
- Id3v2Io.ReadFull: the unsynchronisation scheme, and what the program answers when it looks past the tag.
- Apev2Io.ReadFull: the variant that reads from memory; `char` is taken as signed, so key bytes from 0x80 on are refused.
- Rewriter.RewriteTags: which frames go into the new tags (they are arbitrary), character sets, read and write errors, the temporary file and its rename.
- RewriteSpec.AudioKept: assumes that audio is left, and that where no tag is put down the bytes do not look like one.
- CueParser.LoadCuesheet: splitting and lexing of lines, time strings (an INDEX carries a real number of seconds), titles and other metadata fields, looking up files on disk (a list of answers), insertion into the playlist. The code never checks the table of 99 tracks, so sheets have at most 99 TRACK lines; it requires a sheet that does not make the code follow a null pointer (CueSpec.NullFile).
- CueSheets.SheetParses: sheets in which each track has an INDEX 01 and its PREGAP, if any, before that; MissingFile has those with a file that cannot be loaded.
- ConfStore.Conf.LoadBuffer: a last line without newline makes the code look one byte behind the terminating zero; here it ends there.
- ConfStore.Conf.Save: opening and renaming the files, which is taken to succeed (a failing rename is only logged), and locks.
- ConfRuns.ReloadAfterRun: both files can be written; ConfStore.Conf.Save says what one that cannot leaves behind.
- BufferedWriter.Writer.Flush: after a failed write the bytes already in the file are still in the buffer; nothing is claimed about going on from there.
- MessagePool: waiting and signalling, a null handler, event allocation.
- DecodedBlocks.Blocks: the track reference that a released block drops, rounding in the sum of times.
- `shared/mp4tagutil.c`, plugins, sockets, threads, escaping, the play queue, DSP and ReplayGain scanning.
