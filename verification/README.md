# QuadView in Dafny

QuadView is a Micro-Manager image-processing plugin for cameras whose optics
image four emission bands side by side onto one sensor. Its processor cuts
every camera frame into four half-width, half-height quadrant images: blue
(top-left), green (bottom-left), red (top-right) and far-red (bottom-right).
It keeps only the quadrants the user selected and numbers the kept ones as
channels 0, 1, 2, .... It also rewrites the dataset's channel-name list so
that every original name becomes four suffixed names. A configuration window
holds the four keep flags, writes them to a settings map, recolours the
display channels when a flag changes and draws a 2 x 2 preview. A factory
reads the flags back from the settings map and builds processors from them.

This project models all of this as pure functions over immutable data:

- `quadrants.dfy` (module `Quadrants`): the four quadrants, the fixed
  processing order Blue, Green, Red, FarRed, the four-flag `Selection`, and
  `Kept`, the kept quadrants in that order.
- `grid.dfy` (module `Grid`): pixel buffers as row-major `seq<seq<T>>` grids,
  rectangles, and `Crop`, which extracts a sub-grid. It stands for ImageJ's
  `setRoi` followed by `crop`.
- `processor.dfy` (module `Processor`): crop rectangles, `ProcessImage` and
  `ProcessSummaryMetadata`, and their properties.
- `frame.dfy` (module `Frame`): the pure rules of the configuration window.
- `factory.dfy` (module `Factory`): reading flags from settings and creating
  processors.
- `consistency.dfy` (module `Consistency`): lemmas stating that the window,
  the factory and the processor agree.

An image is a pixel grid with its declared width and height. It also carries
bytes-per-pixel, a component count, its axis coordinates as a map from axis
name to index, and opaque metadata. Emitting an image to the pipeline is
modelled as appending it to the returned sequence.

The model follows the code as written, which differs from what one might
expect of a channel splitter in these points:

- Channel-name suffixes have no separator ("DICBlue", not "DIC_Blue").
- Every base name always becomes four names, whatever the keep flags say.
- The axis order, the intended channel count and the image size in the
  summary are left unchanged. The code neither reorders axes nor halves
  summary dimensions.
- As a consequence, channel names and crops agree only when the kept
  quadrants are a prefix of the order. With only green and red kept,
  channel 0 holds the green crop but carries the "Blue" name.
  `Processor.ChannelNameMatchesCropIff` and `Processor.GreenCropNamedBlue`
  state this.

## Model

| member | source | states |
|---|---|---|
| `Quadrants.KeptCount` | src/QuadView/QuadViewProcessor.java:108-149 | number of kept quadrants, at most 4; it is 0 iff no flag is set and 4 iff all are set |
| `Quadrants.Kept` | src/QuadView/QuadViewProcessor.java:109-149 | the kept quadrants contain exactly the quadrants whose flag is true, strictly in processing order, and there are KeptCount of them |
| `Quadrants.With` | src/QuadView/QuadViewFrame.java:221-247 | setting one quadrant's flag changes that flag to the new value and no other flag |
| `Grid.Crop` | src/QuadView/QuadViewProcessor.java:110-113 | the crop has the rectangle's size, and each of its pixels is the source pixel at the rectangle's offset |
| `Processor.Roi` | src/QuadView/QuadViewProcessor.java:89-94 | each crop rectangle is half the frame size with truncating division and lies inside the source frame |
| `Processor.Output` | src/QuadView/QuadViewProcessor.java:110-116 | an output image is the quadrant's crop at half size; it keeps bytes-per-pixel, component count, metadata and every coordinate except the channel, which becomes the given index |
| `Processor.Emit` | src/QuadView/QuadViewProcessor.java:108-149 | visiting quadrants with a counter emits one image per kept quadrant; the i-th output is the i-th kept quadrant at channel counter + i |
| `Processor.ProcessImage` | src/QuadView/QuadViewProcessor.java:86-149 | a frame yields KeptCount images; image i is the crop of the i-th kept quadrant, is half-size and well formed, and has channel index i |
| `Processor.OrderIsColumnMajor` | src/QuadView/QuadViewProcessor.java:109-141 | the i-th quadrant of the order is cropped at column i / 2 and row i % 2 of the 2 x 2 layout: blue (0,0), green (0,H/2), red (W/2,0), farRed (W/2,H/2) |
| `Processor.RoisDisjoint` | src/QuadView/QuadViewProcessor.java:110-141 | no pixel lies in two different quadrants' crop rectangles |
| `Processor.QuadrantsTile` | src/QuadView/QuadViewProcessor.java:89-94 | the four crops, reassembled as blue beside red over green beside farRed, equal the frame cut to even width and height, so only an odd last row or column is lost |
| `Processor.QuadrantsTileEvenFrame` | src/QuadView/QuadViewProcessor.java:89-94 | for even width and height the four crops reassemble the frame exactly |
| `Processor.ProcessImageArea` | src/QuadView/QuadViewProcessor.java:113-115 | the emitted images hold KeptCount x (W/2) x (H/2) pixels in total |
| `Processor.GreenAndRedOnly` | src/QuadView/QuadViewProcessor.java:108-139 | with only green and red kept, the green crop is channel 0 and the red crop channel 1 |
| `Processor.ExpandedNames` | src/QuadView/QuadViewProcessor.java:75-81 | the expanded list has 4 n names; name k is base name k / 4 followed by suffix k % 4 |
| `Processor.ExpandNames` | src/QuadView/QuadViewProcessor.java:75-81 | the nested loop over base names and suffixes builds exactly the expanded list: 4 n names, base k / 4 followed by suffix k % 4 at index k |
| `Processor.ExpandedNameAt` | src/QuadView/QuadViewProcessor.java:79 | entry i * 4 + j of the expansion is base name i followed by suffix j |
| `Processor.ProcessSummaryMetadata` | src/QuadView/QuadViewProcessor.java:66-83 | with no channel names, or an empty list, the summary comes back unchanged; otherwise only the names change, to 4 n entries with base i plus suffix j at i * 4 + j, for any keep flags |
| `Processor.BaseNamesUndoExpansion` | src/QuadView/QuadViewProcessor.java:75-81 | the base names can be read back from the expanded list, so the expansion loses nothing |
| `Processor.SuffixesDistinguish` | src/QuadView/QuadViewProcessor.java:54-55 | the four suffixes give four different names for the same base |
| `Processor.ChannelNameMatchesCropIff` | src/QuadView/QuadViewProcessor.java:75-82 | with one base name, the name at channel k carries the suffix of the quadrant cropped into channel k iff that quadrant is the k-th of the order |
| `Processor.GreenCropNamedBlue` | src/QuadView/QuadViewProcessor.java:120-128 | with only green and red kept, channel 0 holds the green crop but its name ends in "Blue" |
| `Frame.GetSettings` | src/QuadView/QuadViewFrame.java:137-144 | the settings have exactly the keys keep_blue, keep_green, keep_red and keep_farRed, each with that quadrant's flag |
| `Frame.UpdateSettings` | src/QuadView/QuadViewFrame.java:221-247 | the flag named by the channel string takes the new value and the others keep theirs; an unknown string changes nothing |
| `Frame.CheckBoxTogglesItsQuadrant` | src/QuadView/QuadViewFrame.java:169-203 | the string sent by a quadrant's check box updates exactly that quadrant's flag |
| `Frame.AssignSlots` | src/QuadView/QuadViewFrame.java:259-279 | the counter ends at its start plus the number of kept quadrants; each kept quadrant's slot gets its colour and all other slots stay as they were |
| `Frame.DisplaySettingsFor` | src/QuadView/QuadViewFrame.java:257-285 | slot k, for k below the kept count, gets the colour of the k-th kept quadrant (cyan, green, orange, magenta); slots from the kept count on and the display-wide fields are kept; the mode is grayscale iff exactly one quadrant is kept |
| `Frame.PreviewBoxes` | src/QuadView/QuadViewFrame.java:331-354 | four 25 x 25 boxes inside the 50 x 50 preview, pairwise disjoint, each light gray iff its quadrant is not kept and white otherwise |
| `Factory.GetBoolean` | src/QuadView/QuadViewFactory.java:39-42 | a present key gives its value; an absent key gives the default |
| `Factory.FromSettings` | src/QuadView/QuadViewFactory.java:37-43 | each flag comes from its own key and is true when that key is absent |
| `Factory.EmptySettingsKeepAll` | src/QuadView/QuadViewFactory.java:39-42 | empty settings give a processor that keeps all four quadrants |
| `Factory.CreateProcessor` | src/QuadView/QuadViewFactory.java:46-48 | the processor gets the factory's flags positionally: blue, green, red, farRed |
| `Consistency.SettingsRoundTrip` | src/QuadView/QuadViewFactory.java:39-42 | a factory built from the window's settings creates a processor with exactly the window's flags |
| `Consistency.DisplayMatchesEmittedChannels` | src/QuadView/QuadViewFrame.java:259-279 | for every channel k the processor emits, image k is the crop of the k-th kept quadrant, and the display slot k exists and shows that same quadrant's colour |
| `Consistency.GrayscaleIffSingleOutput` | src/QuadView/QuadViewFrame.java:281-285 | the display is grayscale iff the processor emits exactly one image per frame |
| `Consistency.PreviewMatchesCrops` | src/QuadView/QuadViewFrame.java:331-354 | each preview box is the processor's crop rectangle for a 50 x 50 frame, and it is gray iff that quadrant is not kept |

## Left out

- src/QuadView/QuadView.java, the plugin registration shell: it only returns constants and constructs the window and the factory.
- The Swing parts of the window: check-box wiring, layout, window placement, and the painting calls. Only the box layout and fill rule of the preview are modelled.
- The window constructor's flag defaults. They come from the user profile, and profile access is not modelled. This covers the flag writes in `updateSettings`, the read of the stored display settings by `restoreFromProfile`, and the writes of display settings by `saveToProfile`.
- The display settings that the flag rule starts from are a parameter of `Frame.DisplaySettingsFor`. The code restores them from the profile or uses the standard settings.
- Frame.DisplaySettingsFor: a display channel slot is modelled by its colour only. The code installs a freshly built channel display settings object in each kept slot, so every other per-channel field of that slot goes back to the builder's defaults. The model does not track those fields. Slots from the kept count on are untouched in both the code and the model.
- The call to `notifyPipelineChanged` at the end of `updateSettings` and the `repaint` after it. They notify the pipeline and the window and compute nothing.
- The compare-and-set retry loop that installs the new display settings on the active viewer. It is a concurrency concern. The later save of the viewer's settings also dereferences the viewer when there is none; this is I/O glue and is not modelled.
- ImageJ and Micro-Manager calls are modelled abstractly. `createProcessor`, `setRoi`, `crop` and `getPixels` become `Grid.Crop`. `createImage` becomes the `Processor.Image` constructor. `outputImage` becomes appending to the result sequence.
- `getSafeChannelName(i)` is taken to be the i-th name of a list of strings. Its fallback naming for missing names is library behaviour.
- Settings maps hold only booleans. A non-boolean value stored under a keep key is not modelled.
- Java `int` overflow of `chNames.size() * 4` is not modelled. It needs more than 500 million channel names.
- Processors made by one factory all have the same flags. The model states no lemma for this: a factory is an immutable value and `Factory.CreateProcessor` is a function, so it holds by construction.
- Behaviour the code does not have is not modelled: axis reordering, halving the summary image size, changing the intended channel count, and filtering names by the keep flags.
